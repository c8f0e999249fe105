/** Normalised absolute paths as component sequences, and the containment test on them. */
module Paths {

  type Key = seq<string>

  datatype Option<+T> = None | Some(value: T)

  /** `os.path.commonpath((key, parent)) == parent`: the key is the parent or lies below it. */
  predicate Within(key: Key, parent: Key) {
    |parent| <= |key| && key[..|parent|] == parent
  }

  lemma WithinMeans(key: Key, parent: Key)
    ensures Within(key, parent) <==> exists rest :: key == parent + rest
  {
    if Within(key, parent) {
      assert key == parent + key[|parent|..];
    }
  }

  lemma WithinIsTransitive(a: Key, b: Key, c: Key)
    requires Within(a, b) && Within(b, c)
    ensures Within(a, c)
  {
  }

  /** Two directories that share a path below both are nested. */
  lemma SharedDescendantNests(p: Key, a: Key, b: Key)
    requires Within(p, a) && Within(p, b) && |a| <= |b|
    ensures Within(b, a)
  {
  }
}
