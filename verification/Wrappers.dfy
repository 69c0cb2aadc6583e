/** The result types shared by every component. */
module Wrappers {
  datatype Option<+T> = None | Some(value: T)

  datatype Result<+T, +E> = Ok(value: T) | Err(error: E)

  newtype byte = x: int | 0 <= x < 256

  lemma SplitLast<T>(s: seq<T>)
    requires s != []
    ensures s == s[..|s| - 1] + [s[|s| - 1]]
  {
  }

  lemma PrefixOfPrefix<T>(s: seq<T>, m: nat, n: nat)
    requires m <= n <= |s|
    ensures s[..n][..m] == s[..m]
  {
  }

  lemma SliceGrow<T>(s: seq<T>, m: nat, n: nat)
    requires m <= n < |s|
    ensures s[m..n] + [s[n]] == s[m..n + 1]
  {
  }

  /** A set visited one element at a time: what has been seen and what is left. */
  ghost predicate Parted<T>(all: set<T>, seen: set<T>, rest: set<T>) {
    seen + rest == all && seen !! rest
  }

  lemma PartedNext<T>(all: set<T>, seen: set<T>, rest: set<T>, x: T)
    requires Parted(all, seen, rest) && x in rest
    ensures Parted(all, seen + {x}, rest - {x})
    ensures x in all && x !in seen
  {
  }

  lemma PartedDone<T>(all: set<T>, seen: set<T>)
    requires Parted(all, seen, {})
    ensures seen == all
  {
  }

  lemma WholePrefix<T>(s: seq<T>)
    ensures s[..|s|] == s
  {
  }
}
