/**
 File manifests and the two validators that receive them. Paths are sequences of UTF-8 code units.
 */
module Manifest {
  import opened Common

  const MAX_ENTRIES: nat := 256
  const MAX_PATH: nat := 1024
  const MAX_TOTAL: nat := 64 * 1024 * 1024

  datatype Kind = File | Directory

  datatype Entry = Entry(fileId: nat, path: string, kind: Kind, size: nat)

  function Total(entries: seq<Entry>): nat {
    if entries == [] then 0 else Total(entries[..|entries| - 1]) + entries[|entries| - 1].size
  }

  // ----- Paths -----

  /** `path.split('/')`. */
  function Parts(path: string): (parts: seq<string>)
    ensures |parts| >= 1
  {
    if path == "" then [""]
    else
      var rest := Parts(path[1..]);
      if path[0] == '/' then [""] + rest else [[path[0]] + rest[0]] + rest[1..]
  }

  function Join(parts: seq<string>): string {
    if parts == [] then ""
    else if |parts| == 1 then parts[0]
    else parts[0] + "/" + Join(parts[1..])
  }

  lemma {:induction false} PartsOfOne(part: string)
    requires '/' !in part
    ensures Parts(part) == [part]
  {
    if part != "" {
      PartsOfOne(part[1..]);
      assert [part[0]] + part[1..] == part;
    }
  }

  lemma {:induction false} PartsOfFirst(part: string, rest: string)
    requires '/' !in part
    ensures Parts(part + "/" + rest) == [part] + Parts(rest)
  {
    var path := part + "/" + rest;
    if part == "" {
      assert path == "/" + rest && path[1..] == rest;
    } else {
      assert path[1..] == part[1..] + "/" + rest;
      PartsOfFirst(part[1..], rest);
      assert Parts(path[1..]) == [part[1..]] + Parts(rest);
      assert [part[0]] + part[1..] == part;
    }
  }

  /** Splitting undoes joining, as long as no part holds a separator. */
  lemma {:induction false} SplitUndoesJoin(parts: seq<string>)
    requires parts != [] && forall p :: p in parts ==> '/' !in p
    ensures Parts(Join(parts)) == parts
    decreases |parts|
  {
    if |parts| == 1 {
      PartsOfOne(parts[0]);
    } else {
      SplitUndoesJoin(parts[1..]);
      PartsOfFirst(parts[0], Join(parts[1..]));
      assert [parts[0]] + parts[1..] == parts;
    }
  }

  // ----- The validator of a wire manifest -----

  predicate WirePathOk(path: string) {
    && 0 < |path| <= MAX_PATH
    && path[0] != '/'
    && forall part :: part in Parts(path) ==> part != "" && part != "." && part != ".."
  }

  predicate EntryOk(entry: Entry) {
    entry.fileId != 0 && (entry.kind == Directory ==> entry.size == 0)
  }

  ghost predicate DistinctPaths(entries: seq<Entry>) {
    forall i, j :: 0 <= i < j < |entries| ==> entries[i].path != entries[j].path
  }

  ghost predicate DistinctIds(entries: seq<Entry>) {
    forall i, j :: 0 <= i < j < |entries| ==> entries[i].fileId != entries[j].fileId
  }

  ghost predicate WireEntriesOk(entries: seq<Entry>) {
    && (forall i :: 0 <= i < |entries| ==> EntryOk(entries[i]) && WirePathOk(entries[i].path))
    && DistinctIds(entries) && DistinctPaths(entries)
    && Total(entries) <= MAX_TOTAL
  }

  ghost predicate WireManifestOk(entries: seq<Entry>) {
    1 <= |entries| <= MAX_ENTRIES && WireEntriesOk(entries)
  }

  lemma {:induction false} TotalGrows(entries: seq<Entry>, n: nat)
    requires n <= |entries|
    ensures Total(entries[..n]) <= Total(entries)
    decreases |entries|
  {
    if n < |entries| {
      TotalGrows(entries[..|entries| - 1], n);
      assert entries[..|entries| - 1][..n] == entries[..n];
    } else {
      assert entries[..n] == entries;
    }
  }

  lemma TotalOfNext(entries: seq<Entry>, i: nat)
    requires i < |entries|
    ensures Total(entries[..i + 1]) == Total(entries[..i]) + entries[i].size
  {
    assert entries[..i + 1][..i] == entries[..i];
  }

  /** One more entry is fine when it is fine itself, new in id and path, and fits the total. */
  lemma WireNext(entries: seq<Entry>, i: nat)
    requires i < |entries| && WireEntriesOk(entries[..i])
    ensures
      var entry := entries[i];
      WireEntriesOk(entries[..i + 1]) <==>
        && EntryOk(entry) && WirePathOk(entry.path)
        && (forall j :: 0 <= j < i ==> entries[j].fileId != entry.fileId)
        && (forall j :: 0 <= j < i ==> entries[j].path != entry.path)
        && Total(entries[..i]) + entry.size <= MAX_TOTAL
  {
    TotalOfNext(entries, i);
    var before, after := entries[..i], entries[..i + 1];
    assert after == before + [entries[i]];
    assert forall j :: 0 <= j < i ==> before[j] == entries[j] == after[j];
    assert after[i] == entries[i];
  }

  lemma WirePrefix(entries: seq<Entry>, n: nat)
    requires n <= |entries|
    ensures WireEntriesOk(entries) ==> WireEntriesOk(entries[..n])
  {
    TotalGrows(entries, n);
  }

  /** Accepts exactly the manifests that are sound as a whole. */
  method ValidateWireManifest(entries: seq<Entry>) returns (ok: bool)
    ensures ok <==> WireManifestOk(entries)
  {
    if |entries| == 0 || |entries| > MAX_ENTRIES {
      return false;
    }
    var ids: set<nat> := {};
    var paths: set<string> := {};
    var total := 0;
    var i := 0;
    while i < |entries|
      invariant 0 <= i <= |entries| && WireEntriesOk(entries[..i])
      invariant ids == set j | 0 <= j < i :: entries[j].fileId
      invariant paths == set j | 0 <= j < i :: entries[j].path
      invariant total == Total(entries[..i])
    {
      var entry := entries[i];
      WireNext(entries, i);
      TotalOfNext(entries, i);
      WirePrefix(entries, i + 1);
      if entry.fileId == 0 || entry.fileId in ids {
        return false;
      }
      ids := ids + {entry.fileId};
      if entry.path == "" || |entry.path| > MAX_PATH || entry.path in paths {
        return false;
      }
      paths := paths + {entry.path};
      if !WirePathOk(entry.path) {
        return false;
      }
      if entry.kind == Directory && entry.size != 0 {
        return false;
      }
      if total + entry.size > U64_MAX || total + entry.size > MAX_TOTAL {
        return false;
      }
      total := total + entry.size;
      i := i + 1;
    }
    assert entries[..i] == entries;
    return true;
  }

  // ----- The validator of an incoming transfer -----

  /** Every component of the path is an ordinary name; repeated separators and inner dots are skipped over. */
  predicate RelativePathOk(path: string) {
    && 0 < |path| <= MAX_PATH
    && '\\' !in path && '\0' !in path
    && path[0] != '/' && Parts(path)[0] != "." && ".." !in Parts(path)
  }

  ghost predicate Ascending(entries: seq<Entry>) {
    forall i, j :: 0 <= i < j < |entries| ==> entries[i].fileId < entries[j].fileId
  }

  ghost predicate IncomingEntriesOk(entries: seq<Entry>, limit: Option<nat>) {
    && (forall i :: 0 <= i < |entries| ==> EntryOk(entries[i]) && RelativePathOk(entries[i].path))
    && Ascending(entries) && DistinctPaths(entries)
    && Total(entries) <= U64_MAX
    && (limit.Some? ==> Total(entries) <= limit.value)
  }

  ghost predicate IncomingManifestOk(entries: seq<Entry>, limit: Option<nat>) {
    1 <= |entries| <= MAX_ENTRIES && IncomingEntriesOk(entries, limit)
  }

  lemma IncomingNext(entries: seq<Entry>, i: nat, limit: Option<nat>)
    requires i < |entries| && IncomingEntriesOk(entries[..i], limit)
    ensures
      var entry := entries[i];
      IncomingEntriesOk(entries[..i + 1], limit) <==>
        && EntryOk(entry) && RelativePathOk(entry.path)
        && (i > 0 ==> entries[i - 1].fileId < entry.fileId)
        && (forall j :: 0 <= j < i ==> entries[j].path != entry.path)
        && Total(entries[..i]) + entry.size <= U64_MAX
        && (limit.Some? ==> Total(entries[..i]) + entry.size <= limit.value)
  {
    TotalOfNext(entries, i);
    var before, after := entries[..i], entries[..i + 1];
    assert after == before + [entries[i]];
    assert forall j :: 0 <= j < i ==> before[j] == entries[j] == after[j];
    assert after[i] == entries[i];
    AscendingNext(entries, i);
  }

  lemma AscendingNext(entries: seq<Entry>, i: nat)
    requires i < |entries| && Ascending(entries[..i])
    ensures Ascending(entries[..i + 1]) <==> (i > 0 ==> entries[i - 1].fileId < entries[i].fileId)
  {
    var before, after := entries[..i], entries[..i + 1];
    assert forall j :: 0 <= j < i ==> before[j] == after[j] == entries[j];
    assert after[i] == entries[i];
    if i > 0 {
      assert forall j :: 0 <= j < i - 1 ==> before[j].fileId < before[i - 1].fileId;
      assert Ascending(after) ==> after[i - 1].fileId < after[i].fileId;
    }
  }

  lemma IncomingPrefix(entries: seq<Entry>, n: nat, limit: Option<nat>)
    requires n <= |entries|
    ensures IncomingEntriesOk(entries, limit) ==> IncomingEntriesOk(entries[..n], limit)
  {
    TotalGrows(entries, n);
  }

  method ValidateIncoming(entries: seq<Entry>, limit: Option<nat>) returns (ok: bool)
    ensures ok <==> IncomingManifestOk(entries, limit)
  {
    if |entries| == 0 || |entries| > MAX_ENTRIES {
      return false;
    }
    var paths: set<string> := {};
    var total, previous, i := 0, 0, 0;
    while i < |entries|
      invariant 0 <= i <= |entries| && IncomingEntriesOk(entries[..i], limit)
      invariant paths == set j | 0 <= j < i :: entries[j].path
      invariant previous == if i == 0 then 0 else entries[i - 1].fileId
      invariant total == Total(entries[..i])
    {
      var entry := entries[i];
      IncomingNext(entries, i, limit);
      TotalOfNext(entries, i);
      IncomingPrefix(entries, i + 1, limit);
      if entry.fileId == 0 || entry.fileId <= previous || entry.path in paths {
        return false;
      }
      paths := paths + {entry.path};
      previous := entry.fileId;
      if !RelativePathOk(entry.path) || (entry.kind == Directory && entry.size != 0) {
        return false;
      }
      if total + entry.size > U64_MAX || (limit.Some? && total + entry.size > limit.value) {
        return false;
      }
      total := total + entry.size;
      i := i + 1;
    }
    assert entries[..i] == entries;
    return true;
  }
}
