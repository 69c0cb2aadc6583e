/**
 The private directory both evidence stores write to.

 Each primitive is a sequence of atomic durable steps.  `visited` records the
 content after every one of them, so a crash of the program leaves exactly one of
 the recorded contents behind.  Every primitive may also fail: a failing unlink or
 replace may or may not have taken effect, and a failing exclusive write may leave
 any prefix of the new file.
 */
module PrivateDirectory {
  import opened Wrappers

  // A record's stem and a staging file's token are fixed-width strings; a natural
  // number stands for each, ordered as the strings are.
  // `Intent` and `Proof` are the acknowledgement store's two files for one digest, and
  // `StrayAck` is a name under its prefix that fits neither pattern.
  datatype Name =
    | Record(stem: nat)
    | Staging(token: nat)
    | Intent(digest: nat)
    | Proof(digest: nat)
    | StrayAck(text: nat)
    | Other(text: nat)

  // `private` is the single-link, owner-only regular file test.
  datatype File = File(bytes: seq<byte>, private: bool)

  type Files = map<Name, File>

  /** Content that writing `raw` under the unused `name` can leave, at any point. */
  ghost predicate Written(before: Files, name: Name, raw: seq<byte>, after: Files) {
    || after == before
    || (name in after && after[name].private && after[name].bytes <= raw
        && after == before[name := after[name]])
  }

  /** No existing file was deleted or rewritten. */
  ghost predicate Untouched(before: Files, after: Files) {
    forall name :: name in before ==> name in after && after[name] == before[name]
  }

  ghost predicate Holds(files: Files, name: Name, raw: seq<byte>) {
    name in files && files[name] == File(raw, true)
  }

  class Directory {
    var files: Files
    ghost var visited: seq<Files>
    ghost var faults: nat  // how many primitives have failed so far

    ghost predicate Valid()
      reads this
    {
      |visited| > 0 && visited[|visited| - 1] == files
    }

    constructor (initial: Files)
      ensures Valid() && files == initial && visited == [initial] && faults == 0
    {
      files, visited, faults := initial, [initial], 0;
    }

    method Commit(next: Files)
      modifies this`files, this`visited
      ensures Valid() && files == next && visited == old(visited) + [next]
    {
      files := next;
      visited := visited + [next];
    }

    /** A primitive that changes nothing: a sync, a read or an identity check. */
    method Touch() returns (ok: bool)
      requires Valid()
      modifies this`faults
      ensures faults == old(faults) + if ok then 0 else 1
    {
      ok := *;
      if !ok { faults := faults + 1; }
    }

    method Unlink(name: Name) returns (ok: bool)
      requires Valid()
      modifies this
      ensures Valid() && old(visited) <= visited
      ensures faults == old(faults) + if ok then 0 else 1
      ensures ok ==> name in old(files) && files == old(files) - {name}
      ensures files == old(files) || files == old(files) - {name}
      ensures forall i :: |old(visited)| <= i < |visited| ==> visited[i] == files
    {
      ok := *;
      var effective: bool := *;
      ok := ok && name in files;
      if ok || effective { Commit(files - {name}); }
      if !ok { faults := faults + 1; }
    }

    /** Moves `source` over `destination` in one step. */
    method Replace(source: Name, destination: Name) returns (ok: bool)
      requires Valid() && source in files && source != destination
      modifies this
      ensures Valid() && old(visited) <= visited
      ensures faults == old(faults) + if ok then 0 else 1
      ensures ok ==> files == old(files)[destination := old(files)[source]] - {source}
      ensures files == old(files) || files == old(files)[destination := old(files)[source]] - {source}
      ensures forall i :: |old(visited)| <= i < |visited| ==> visited[i] == files
    {
      ok := *;
      var effective: bool := *;
      if ok || effective { Commit(files[destination := files[source]] - {source}); }
      if !ok { faults := faults + 1; }
    }

    /** Exclusive creation: refused when the name exists, otherwise create, fill, sync. */
    method WriteNew(name: Name, raw: seq<byte>) returns (ok: bool)
      requires Valid()
      modifies this
      ensures Valid() && old(visited) <= visited
      ensures faults == old(faults) + if ok then 0 else 1
      ensures ok ==> name !in old(files) && files == old(files)[name := File(raw, true)]
      ensures name in old(files) ==> files == old(files) && visited == old(visited)
      ensures name !in old(files) ==> Written(old(files), name, raw, files)
      ensures name !in old(files) ==> forall i :: |old(visited)| <= i < |visited| ==>
        Written(old(files), name, raw, visited[i])
    {
      ghost var before := files;
      var created: bool := *;
      if name in files || !created {
        faults := faults + 1;
        return false;
      }
      var cut: nat :| cut <= |raw|;
      Commit(files[name := File(raw[..cut], true)]);
      ok := *;
      if ok {
        Commit(files[name := File(raw, true)]);
      } else {
        faults := faults + 1;
        var removed: bool := *;
        if removed {
          Commit(files - {name});
          assert files == before;
        }
      }
    }
  }
}
