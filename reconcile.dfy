/**
 * The startup scan of src/main.rs: which remote "A" records match a desired name,
 * which ids are kept for later, and which records need their address patched.
 */
module Reconcile {
  import opened Wrappers
  import opened Types

  /** The three lists the scan fills: matched record ids, matched names, and queued patches. */
  datatype Scan = Scan(recordIds: seq<string>, existing: seq<string>, updates: seq<RecordUpdate>)

  /**
   * The scan of `remote` in order: a record whose name equals a desired name adds its id
   * and its name, and a patch to `lastIp` when its address differs; any other record adds nothing.
   */
  function ScanOf(desired: seq<string>, remote: seq<Record>, lastIp: string): (s: Scan)
    ensures |s.recordIds| == |s.existing| <= |remote|
    ensures |s.updates| <= |s.recordIds|
    decreases |remote|
  {
    if remote == [] then Scan([], [], [])
    else
      var s := ScanOf(desired, remote[..|remote| - 1], lastIp);
      var record := remote[|remote| - 1];
      if record.name !in desired then s
      else
        Scan(s.recordIds + [record.id], s.existing + [record.name],
             if record.content != lastIp then s.updates + [RecordUpdate(record.id, lastIp)] else s.updates)
  }

  /** The first element of `names` equal to `name`, if any (Rust's iter().find). */
  method FindName(names: seq<string>, name: string) returns (found: Option<string>)
    ensures found.Some? <==> name in names
    ensures found.Some? ==> found.value == name
  {
    var i := 0;
    while i < |names|
      invariant 0 <= i <= |names|
      invariant name !in names[..i]
    {
      if names[i] == name {
        return Some(names[i]);
      }
      i := i + 1;
    }
    assert names[..i] == names;
    return None;
  }

  /** The first pass over the fetched records. */
  method ScanRecords(desired: seq<string>, remote: seq<Record>, lastIp: string)
    returns (recordIds: seq<string>, existing: seq<string>, updates: seq<RecordUpdate>)
    ensures Scan(recordIds, existing, updates) == ScanOf(desired, remote, lastIp)
  {
    recordIds, existing, updates := [], [], [];
    for i := 0 to |remote|
      invariant Scan(recordIds, existing, updates) == ScanOf(desired, remote[..i], lastIp)
    {
      var record := remote[i];
      assert remote[..i + 1][..i] == remote[..i];
      var found := FindName(desired, record.name);
      if found.Some? {
        existing := existing + [record.name];
        recordIds := recordIds + [record.id];
        if record.content != lastIp {
          updates := updates + [RecordUpdate(record.id, lastIp)];
        }
      }
    }
    assert remote[..|remote|] == remote;
  }

  /**
   * The second pass: every desired name is looked up among the matched names, and
   * nothing is done with the answer, so no record is ever queued for creation.
   */
  method CheckDesired(desired: seq<string>, existing: seq<string>) returns (newRecords: seq<RecordCreate>)
    ensures newRecords == []
  {
    newRecords := [];
    for i := 0 to |desired| {
      var found := FindName(existing, desired[i]);
    }
  }

  // ---------------------------------------------------------------------------------
  // An independent description of the scan: the order-preserving filter of the remote
  // records by desired name.

  /** The remote records whose name is a desired name, in remote order, duplicates kept. */
  function Matched(desired: seq<string>, remote: seq<Record>): (m: seq<Record>)
    ensures forall r :: r in m ==> r in remote && r.name in desired
    decreases |remote|
  {
    if remote == [] then []
    else
      var record := remote[|remote| - 1];
      Matched(desired, remote[..|remote| - 1]) + (if record.name in desired then [record] else [])
  }

  /** `a` is `b` with some elements left out. */
  ghost predicate IsSubsequence<T>(a: seq<T>, b: seq<T>)
    decreases |b|
  {
    a == [] ||
    (b != [] &&
     (IsSubsequence(a, b[..|b| - 1]) ||
      (a[|a| - 1] == b[|b| - 1] && IsSubsequence(a[..|a| - 1], b[..|b| - 1]))))
  }

  /** Matching keeps every occurrence of every record whose name is desired, and nothing else. */
  lemma {:induction false} MatchedKeepsEachOccurrence(desired: seq<string>, remote: seq<Record>)
    ensures forall r :: multiset(Matched(desired, remote))[r] ==
                        if r.name in desired then multiset(remote)[r] else 0
    decreases |remote|
  {
    if remote != [] {
      var prefix, record := remote[..|remote| - 1], remote[|remote| - 1];
      MatchedKeepsEachOccurrence(desired, prefix);
      assert remote == prefix + [record];
    }
  }

  /** Matching keeps the remote order. */
  lemma {:induction false} MatchedKeepsOrder(desired: seq<string>, remote: seq<Record>)
    ensures IsSubsequence(Matched(desired, remote), remote)
    decreases |remote|
  {
    if remote != [] {
      var prefix, record := remote[..|remote| - 1], remote[|remote| - 1];
      var m := Matched(desired, prefix);
      MatchedKeepsOrder(desired, prefix);
      if record.name in desired {
        assert (m + [record])[..|m|] == m;
      } else {
        assert Matched(desired, remote) == m;
      }
    }
  }

  /**
   * The ids and the names the scan keeps are those of the matched records, index by index:
   * entry k of both lists comes from the same remote record.
   */
  lemma {:induction false} ScanAligned(desired: seq<string>, remote: seq<Record>, lastIp: string)
    ensures var s, m := ScanOf(desired, remote, lastIp), Matched(desired, remote);
            |s.recordIds| == |s.existing| == |m| &&
            forall k :: 0 <= k < |m| ==> s.recordIds[k] == m[k].id && s.existing[k] == m[k].name
    decreases |remote|
  {
    if remote != [] {
      ScanAligned(desired, remote[..|remote| - 1], lastIp);
    }
  }

  /** One patch to `lastIp` per remote record with a desired name and another address, in remote order. */
  function Stale(desired: seq<string>, remote: seq<Record>, lastIp: string): seq<RecordUpdate>
    decreases |remote|
  {
    if remote == [] then []
    else
      var record := remote[|remote| - 1];
      Stale(desired, remote[..|remote| - 1], lastIp) +
        (if record.name in desired && record.content != lastIp then [RecordUpdate(record.id, lastIp)] else [])
  }

  /**
   * A patch to `lastIp` is queued exactly for the matched records whose address differs
   * from `lastIp`, one per such record and in remote order, and each patch names an id the
   * scan keeps.
   */
  lemma {:induction false} UpdatesExactlyForStale(desired: seq<string>, remote: seq<Record>, lastIp: string)
    ensures ScanOf(desired, remote, lastIp).updates == Stale(desired, remote, lastIp)
    ensures var s := ScanOf(desired, remote, lastIp);
            (forall u :: u in s.updates ==> u.content == lastIp && u.id in s.recordIds) &&
            (forall u :: u in s.updates ==>
               exists j :: 0 <= j < |remote| && remote[j].name in desired &&
                           remote[j].content != lastIp && remote[j].id == u.id) &&
            (forall j :: 0 <= j < |remote| && remote[j].name in desired && remote[j].content != lastIp ==>
               RecordUpdate(remote[j].id, lastIp) in s.updates)
    decreases |remote|
  {
    if remote != [] {
      var prefix := remote[..|remote| - 1];
      UpdatesExactlyForStale(desired, prefix, lastIp);
      forall u | u in ScanOf(desired, prefix, lastIp).updates
        ensures exists j :: 0 <= j < |remote| && remote[j].name in desired &&
                            remote[j].content != lastIp && remote[j].id == u.id
      {
        var j :| 0 <= j < |prefix| && prefix[j].name in desired &&
                 prefix[j].content != lastIp && prefix[j].id == u.id;
        assert remote[j] == prefix[j];
      }
    }
  }

  /** When every matched record already holds `lastIp`, no patch is queued. */
  lemma {:induction false} ConvergedQueuesNothing(desired: seq<string>, remote: seq<Record>, lastIp: string)
    requires forall j :: 0 <= j < |remote| && remote[j].name in desired ==> remote[j].content == lastIp
    ensures ScanOf(desired, remote, lastIp).updates == []
    decreases |remote|
  {
    if remote != [] {
      var prefix := remote[..|remote| - 1];
      assert forall j :: 0 <= j < |prefix| ==> prefix[j] == remote[j];
      ConvergedQueuesNothing(desired, prefix, lastIp);
    }
  }

  /** A desired name is among the matched names exactly when some remote record carries it. */
  lemma {:induction false} ExistingIffRemote(desired: seq<string>, remote: seq<Record>, lastIp: string)
    ensures var s := ScanOf(desired, remote, lastIp);
            forall name :: name in s.existing <==>
              name in desired && exists j :: 0 <= j < |remote| && remote[j].name == name
    decreases |remote|
  {
    if remote != [] {
      var prefix := remote[..|remote| - 1];
      ExistingIffRemote(desired, prefix, lastIp);
      forall name | name in desired && (exists j :: 0 <= j < |remote| && remote[j].name == name)
        ensures name in ScanOf(desired, remote, lastIp).existing
      {
        var j :| 0 <= j < |remote| && remote[j].name == name;
        if j < |prefix| {
          assert prefix[j] == remote[j];
        }
      }
      forall name | name in ScanOf(desired, prefix, lastIp).existing
        ensures exists j :: 0 <= j < |remote| && remote[j].name == name
      {
        var j :| 0 <= j < |prefix| && prefix[j].name == name;
        assert remote[j] == prefix[j];
      }
    }
  }

  // ---------------------------------------------------------------------------------
  // What the queued patches mean: the store sets the address of every record with the
  // patched id. Applying them leaves nothing to patch on a second scan.

  /** The inventory after the store applies one patch. */
  function ApplyPatch(remote: seq<Record>, patch: RecordUpdate): seq<Record> {
    seq(|remote|, j requires 0 <= j < |remote| =>
      if remote[j].id == patch.id then remote[j].(content := patch.content) else remote[j])
  }

  /** The inventory after the store applies the patches in order. */
  function ApplyPatches(remote: seq<Record>, patches: seq<RecordUpdate>): seq<Record>
    decreases |patches|
  {
    if patches == [] then remote
    else ApplyPatch(ApplyPatches(remote, patches[..|patches| - 1]), patches[|patches| - 1])
  }

  /**
   * Patches that all carry `lastIp` keep ids and names, set patched records to `lastIp`,
   * and leave every record that no patch names as it was.
   */
  lemma {:induction false} ApplyPatchesEffect(remote: seq<Record>, patches: seq<RecordUpdate>, lastIp: string)
    requires forall u :: u in patches ==> u.content == lastIp
    ensures var after := ApplyPatches(remote, patches);
            |after| == |remote| &&
            forall j :: 0 <= j < |remote| ==>
              after[j].id == remote[j].id && after[j].name == remote[j].name &&
              (after[j].content == remote[j].content || after[j].content == lastIp) &&
              (RecordUpdate(remote[j].id, lastIp) in patches ==> after[j].content == lastIp)
    ensures forall j :: 0 <= j < |remote| && (forall u :: u in patches ==> u.id != remote[j].id) ==>
              ApplyPatches(remote, patches)[j] == remote[j]
    decreases |patches|
  {
    if patches != [] {
      var init, patch := patches[..|patches| - 1], patches[|patches| - 1];
      assert forall u :: u in init ==> u in patches;
      ApplyPatchesEffect(remote, init, lastIp);
      assert patches == init + [patch];
    }
  }

  /** The kept ids and names depend only on the ids and names of the remote records. */
  lemma {:induction false} ScanIgnoresAddressesForIds(desired: seq<string>, a: seq<Record>, b: seq<Record>, lastIp: string)
    requires |a| == |b|
    requires forall j :: 0 <= j < |a| ==> a[j].id == b[j].id && a[j].name == b[j].name
    ensures ScanOf(desired, a, lastIp).recordIds == ScanOf(desired, b, lastIp).recordIds
    ensures ScanOf(desired, a, lastIp).existing == ScanOf(desired, b, lastIp).existing
    decreases |a|
  {
    if a != [] {
      ScanIgnoresAddressesForIds(desired, a[..|a| - 1], b[..|b| - 1], lastIp);
    }
  }

  /**
   * Reconciling is idempotent: once the store has applied the queued patches, scanning
   * again with the same IP keeps the same ids and names and queues nothing.
   */
  lemma ReapplyingIsQuiet(desired: seq<string>, remote: seq<Record>, lastIp: string)
    ensures var s := ScanOf(desired, remote, lastIp);
            var again := ScanOf(desired, ApplyPatches(remote, s.updates), lastIp);
            again.updates == [] && again.recordIds == s.recordIds && again.existing == s.existing
  {
    var s := ScanOf(desired, remote, lastIp);
    var after := ApplyPatches(remote, s.updates);
    UpdatesExactlyForStale(desired, remote, lastIp);
    ApplyPatchesEffect(remote, s.updates, lastIp);
    ScanIgnoresAddressesForIds(desired, after, remote, lastIp);
    ConvergedQueuesNothing(desired, after, lastIp);
  }
}
