/**
 * The daemon of src/main.rs: a startup pass that lists the zone's "A" records, looks up
 * the public IP and scans the records against the configured names, then, when a
 * non-zero interval is configured, a watch loop that keeps `last_ip` equal to the latest public IP.
 */
module Dynaflare {
  import opened Wrappers
  import opened Types
  import opened Errors
  import opened Configuration
  import opened Remote
  import opened Reconcile

  /**
   * How startup ends: nothing configured (a warning, then a clean exit), a failure that
   * ends the process, or the result of the scan together with the IP it used and the
   * watch interval.
   */
  datatype StartupOutcome =
    | NothingToDo
    | Aborted(error: Error)
    | Reconciled(scan: Scan, newRecords: seq<RecordCreate>, lastIp: string, interval: Duration)

  /** The watch interval: the configured one, or zero when none is configured. */
  function Interval(config: Configuration): (d: Duration)
    ensures config.interval.None? ==> d == 0
    ensures config.interval.Some? ==> d == config.interval.value
  {
    config.interval.UnwrapOr(0)
  }

  /** The watch loop runs only for a non-zero interval; otherwise the run is one-shot. */
  predicate Watches(interval: Duration) {
    interval != 0
  }

  /** The authorised listing of the configured zone's "A" records. */
  function RecordsCall(config: Configuration): Call {
    Get(RecordsUrl(config.zoneId), Some(config.apiToken))
  }

  /**
   * Startup. `recordsReply` and `ipReply` are what the two lookups would return; `calls`
   * are the requests actually issued, in order.
   */
  method Startup(config: Configuration, recordsReply: Reply<seq<Record>>, ipReply: Reply<string>)
    returns (calls: seq<Call>, outcome: StartupOutcome)
    ensures config.records == [] <==> outcome == NothingToDo
    ensures config.records == [] <==> calls == []
    ensures config.records != [] && DnsRecords(recordsReply).Failure? ==>
      calls == [RecordsCall(config)] &&
      outcome == Aborted(Context("DNS records retrieval", DnsRecords(recordsReply).error))
    ensures config.records != [] && DnsRecords(recordsReply).Success? ==>
      calls == [RecordsCall(config), Get(IpifyUrl, None)]
    ensures config.records != [] && DnsRecords(recordsReply).Success? && PublicIp(ipReply).Failure? ==>
      outcome == Aborted(Context("Public IP retrieval", PublicIp(ipReply).error))
    ensures config.records != [] && DnsRecords(recordsReply).Success? && PublicIp(ipReply).Success? ==>
      outcome == Reconciled(ScanOf(config.records, DnsRecords(recordsReply).value, PublicIp(ipReply).value),
                            [], PublicIp(ipReply).value, Interval(config))
  {
    calls := [];
    if config.records == [] {
      return calls, NothingToDo;
    }
    var interval := Interval(config);

    calls := calls + [RecordsCall(config)];
    var records := DnsRecords(recordsReply);
    if records.Failure? {
      return calls, Aborted(Context("DNS records retrieval", records.error));
    }
    calls := calls + [Get(IpifyUrl, None)];
    var ip := PublicIp(ipReply);
    if ip.Failure? {
      return calls, Aborted(Context("Public IP retrieval", ip.error));
    }
    var lastIp := ip.value;

    var recordIds, existing, updates := ScanRecords(config.records, records.value, lastIp);
    var newRecords := CheckDesired(config.records, existing);
    outcome := Reconciled(Scan(recordIds, existing, updates), newRecords, lastIp, interval);
  }

  /** What one pass of the watch loop leads to: the loop goes on, or the process ends with an error. */
  datatype Iteration = Continue(lastIp: string, reassigned: bool) | Abort(error: Error)

  /**
   * One pass of the watch loop: look up the public IP; a failed lookup ends the run,
   * otherwise `last_ip` is reassigned when the new IP differs from it.
   */
  function Iterate(lastIp: string, reply: Reply<string>): (it: Iteration)
    ensures it.Abort? <==> PublicIp(reply).Failure?
    ensures it.Abort? ==>
      Labels(it.error) == ["Public IP retrieval"] + Labels(PublicIp(reply).error) &&
      RootCause(it.error) == RootCause(PublicIp(reply).error)
    ensures it.Continue? ==> it.lastIp == PublicIp(reply).value
    ensures it.Continue? ==> (it.reassigned <==> PublicIp(reply).value != lastIp)
  {
    match PublicIp(reply)
    case Failure(e) => Abort(Context("Public IP retrieval", e))
    case Success(currentIp) =>
      if currentIp != lastIp then Continue(currentIp, true) else Continue(lastIp, false)
  }

  /** The state of the watch loop: the scan's ids and the last IP seen. */
  class Watcher {
    const interval: Duration
    const recordIds: seq<string>
    var lastIp: string

    constructor (interval: Duration, recordIds: seq<string>, lastIp: string)
      requires Watches(interval)
      ensures this.interval == interval && this.recordIds == recordIds && this.lastIp == lastIp
    {
      this.interval := interval;
      this.recordIds := recordIds;
      this.lastIp := lastIp;
    }

    /** One pass of the loop after the sleep; only `lastIp` may change. */
    method Step(reply: Reply<string>) returns (it: Iteration)
      modifies this
      ensures it == Iterate(old(lastIp), reply)
      ensures lastIp == if it.Continue? then it.lastIp else old(lastIp)
      ensures it.Continue? && !it.reassigned ==> lastIp == old(lastIp)
    {
      var fetched := PublicIp(reply);
      if fetched.Failure? {
        return Abort(Context("Public IP retrieval", fetched.error));
      }
      var currentIp := fetched.value;
      if currentIp != lastIp {
        lastIp := currentIp;
        it := Continue(lastIp, true);
      } else {
        it := Continue(lastIp, false);
      }
    }
  }

  /**
   * The watch loop over a finite run of lookups: still watching with the last IP and the
   * number of reassignments so far, or ended by the failure of the pass at `iteration`.
   */
  datatype WatchState = Watching(lastIp: string, reassignments: nat) | Ended(error: Error, iteration: nat)

  function Watch(lastIp: string, replies: seq<Reply<string>>): WatchState
    decreases |replies|
  {
    if replies == [] then Watching(lastIp, 0)
    else
      match Iterate(lastIp, replies[0])
      case Abort(e) => Ended(e, 0)
      case Continue(next, reassigned) =>
        match Watch(next, replies[1..])
        case Watching(ip, n) => Watching(ip, n + if reassigned then 1 else 0)
        case Ended(e, k) => Ended(e, k + 1)
  }

  /**
   * The loop ends only when a lookup fails, and then at the first failed lookup, with the
   * "Public IP retrieval" context on top of that lookup's error.
   */
  lemma {:induction false} WatchEndsAtFirstFailure(lastIp: string, replies: seq<Reply<string>>)
    ensures var w := Watch(lastIp, replies);
            (w.Ended? <==> exists i :: 0 <= i < |replies| && PublicIp(replies[i]).Failure?) &&
            (w.Ended? ==>
               w.iteration < |replies| && PublicIp(replies[w.iteration]).Failure? &&
               w.error == Context("Public IP retrieval", PublicIp(replies[w.iteration]).error) &&
               forall i :: 0 <= i < w.iteration ==> PublicIp(replies[i]).Success?)
    decreases |replies|
  {
    if replies != [] {
      assert forall i :: 0 < i < |replies| ==> replies[i] == replies[1..][i - 1];
      match Iterate(lastIp, replies[0])
      case Abort(_) =>
      case Continue(next, _) => WatchEndsAtFirstFailure(next, replies[1..]);
    }
  }

  /** While no lookup fails, `last_ip` is the IP of the latest lookup, and reassignments never outnumber passes. */
  lemma {:induction false} WatchTracksLatestIp(lastIp: string, replies: seq<Reply<string>>)
    ensures var w := Watch(lastIp, replies);
            w.Watching? ==>
              w.reassignments <= |replies| &&
              (replies == [] ==> w.lastIp == lastIp) &&
              (replies != [] ==> PublicIp(replies[|replies| - 1]) == Success(w.lastIp))
    decreases |replies|
  {
    if replies != [] {
      match Iterate(lastIp, replies[0])
      case Abort(_) =>
      case Continue(next, _) =>
        WatchTracksLatestIp(next, replies[1..]);
        if |replies| > 1 {
          assert replies[|replies| - 1] == replies[1..][|replies[1..]| - 1];
        }
    }
  }

  /** The number of IPs in `ips` that differ from the one before them, the first compared with `lastIp`. */
  function ChangeCount(lastIp: string, ips: seq<string>): nat
    decreases |ips|
  {
    if ips == [] then 0
    else (if ips[0] != lastIp then 1 else 0) + ChangeCount(ips[0], ips[1..])
  }

  /** Successful lookups of the IPs `ips`. */
  function Lookups(ips: seq<string>): (replies: seq<Reply<string>>)
    ensures |replies| == |ips| && forall i :: 0 <= i < |ips| ==> replies[i] == Received(Some(ips[i]))
  {
    seq(|ips|, i requires 0 <= i < |ips| => Received(Some(ips[i])))
  }

  /**
   * While every lookup succeeds, the loop keeps the latest IP and reassigns it once for
   * every IP that differs from the one before it.
   */
  lemma {:induction false} WatchCountsChanges(lastIp: string, ips: seq<string>)
    ensures Watch(lastIp, Lookups(ips)) ==
            Watching(if ips == [] then lastIp else ips[|ips| - 1], ChangeCount(lastIp, ips))
    decreases |ips|
  {
    if ips != [] {
      assert Lookups(ips)[1..] == Lookups(ips[1..]);
      WatchCountsChanges(ips[0], ips[1..]);
    }
  }

  /** Lookups that keep returning `last_ip` never reassign it. */
  lemma {:induction false} SteadyIpNeverReassigns(lastIp: string, replies: seq<Reply<string>>)
    requires forall i :: 0 <= i < |replies| ==> replies[i] == Received(Some(lastIp))
    ensures Watch(lastIp, replies) == Watching(lastIp, 0)
    decreases |replies|
  {
    if replies != [] {
      SteadyIpNeverReassigns(lastIp, replies[1..]);
    }
  }

  /** Lookups returning ip0, ip0, ip1, ip1, ip1 from ip0 reassign once, and leave ip1. */
  lemma OneChangeOneReassignment(ip0: string, ip1: string)
    requires ip0 != ip1
    ensures var ok0, ok1 := Received(Some(ip0)), Received(Some(ip1));
            Watch(ip0, [ok0, ok0, ok1, ok1, ok1]) == Watching(ip1, 1)
  {
    var ok0, ok1 := Received(Some(ip0)), Received(Some(ip1));
    var replies := [ok0, ok0, ok1, ok1, ok1];
    SteadyIpNeverReassigns(ip1, replies[3..]);
    assert replies[2..][1..] == replies[3..];
    assert Watch(ip1, replies[3..]) == Watching(ip1, 0);
    assert Watch(ip0, replies[2..]) == Watching(ip1, 1);
    assert replies[1..][1..] == replies[2..];
    assert Watch(ip0, replies[1..]) == Watching(ip1, 1);
  }
}
