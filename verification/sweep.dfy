/** The sweep of src/docker_housekeep/base.py: delete every image whose
    last use is strictly older than `now - max_age`.

    The clock reading `now`, the iteration order of the Python dict and the
    engine's `delete_image` are parameters. The sweep reads the state and
    never writes it: its result is a report, not a new state. */
module Sweeping {
  import opened Wrappers
  import opened StateStore

  /** What `dockerapi.delete_image` does: succeed, or raise an HTTP error
      carrying the engine's status code. */
  datatype DeleteReply = Deleted | Failed(status: int)

  /** The images deletion was attempted for, in order, and the status of the
      error that ended the pass early, if any. */
  datatype SweepReport = SweepReport(attempted: seq<ImageId>, aborted: Option<int>)

  /** 404 (no such image) and 409 (conflict) are logged and the pass goes on. */
  predicate Tolerated(reply: DeleteReply) {
    reply.Deleted? || reply.status == 404 || reply.status == 409
  }

  predicate NoDuplicates(xs: seq<ImageId>) {
    forall i, j :: 0 <= i < j < |xs| ==> xs[i] != xs[j]
  }

  /** `order` lists every key of `m` exactly once, as `dict.items()` does. */
  predicate Enumerates(order: seq<ImageId>, m: map<ImageId, Time>) {
    && (forall i :: 0 <= i < |order| ==> order[i] in m)
    && (forall k :: k in m ==> k in order)
    && NoDuplicates(order)
  }

  /** The keys of `order` whose entry is older than `cutoff`, in order. */
  function Stale(order: seq<ImageId>, m: map<ImageId, Time>, cutoff: Time): seq<ImageId>
    requires forall i :: 0 <= i < |order| ==> order[i] in m
    decreases |order|
  {
    if |order| == 0 then []
    else
      var n := |order| - 1;
      Stale(order[..n], m, cutoff) + (if m[order[n]] < cutoff then [order[n]] else [])
  }

  /** Every image in `xs` is tracked and older than `cutoff`. */
  ghost predicate AllStale(xs: seq<ImageId>, m: map<ImageId, Time>, cutoff: Time) {
    forall i :: 0 <= i < |xs| ==> xs[i] in m && m[xs[i]] < cutoff
  }

  /** The engine answered every deletion of `xs` with success, 404 or 409. */
  ghost predicate AllTolerated(xs: seq<ImageId>, delete: ImageId -> DeleteReply) {
    forall i :: 0 <= i < |xs| ==> Tolerated(delete(xs[i]))
  }

  /** One more entry of the order extends the stale list by that entry when
      it is stale, and by nothing otherwise. */
  lemma StaleStep(order: seq<ImageId>, m: map<ImageId, Time>, cutoff: Time, i: nat)
    requires forall j :: 0 <= j < |order| ==> order[j] in m
    requires i < |order|
    ensures Stale(order[..i + 1], m, cutoff) ==
              Stale(order[..i], m, cutoff) + (if m[order[i]] < cutoff then [order[i]] else [])
  {
    assert order[..i + 1][..i] == order[..i];
  }

  /** The stale entries of an order are exactly its keys strictly older
      than the cutoff. */
  lemma {:induction false} StaleMembers(order: seq<ImageId>, m: map<ImageId, Time>, cutoff: Time)
    requires forall i :: 0 <= i < |order| ==> order[i] in m
    ensures forall k :: k in Stale(order, m, cutoff) <==> k in order && m[k] < cutoff
    decreases |order|
  {
    if |order| > 0 {
      var n := |order| - 1;
      var prefix := order[..n];
      StaleMembers(prefix, m, cutoff);
      assert order == prefix + [order[n]];
    }
  }

  /** An order without repetitions has stale entries without repetitions. */
  lemma {:induction false} StaleNoDuplicates(order: seq<ImageId>, m: map<ImageId, Time>, cutoff: Time)
    requires forall i :: 0 <= i < |order| ==> order[i] in m
    requires NoDuplicates(order)
    ensures NoDuplicates(Stale(order, m, cutoff))
    decreases |order|
  {
    if |order| > 0 {
      var n := |order| - 1;
      var prefix := order[..n];
      var before := Stale(prefix, m, cutoff);
      StaleNoDuplicates(prefix, m, cutoff);
      StaleMembers(prefix, m, cutoff);
      assert order[n] !in prefix;
      assert order[n] !in before;
    }
  }

  /** A completed pass over an enumeration attempted every stale key of the
      map exactly once. */
  lemma StaleIsExact(order: seq<ImageId>, m: map<ImageId, Time>, cutoff: Time)
    requires Enumerates(order, m)
    ensures forall k :: k in Stale(order, m, cutoff) <==> k in m && m[k] < cutoff
    ensures NoDuplicates(Stale(order, m, cutoff))
  {
    StaleMembers(order, m, cutoff);
    StaleNoDuplicates(order, m, cutoff);
  }

  /** Sweeping a longer prefix of the order only appends to the list of
      stale entries. */
  lemma {:induction false} StalePrefix(order: seq<ImageId>, m: map<ImageId, Time>, cutoff: Time, k: nat)
    requires forall i :: 0 <= i < |order| ==> order[i] in m
    requires k <= |order|
    ensures Stale(order[..k], m, cutoff) <= Stale(order, m, cutoff)
    decreases |order| - k
  {
    if k < |order| {
      StalePrefix(order, m, cutoff, k + 1);
      assert order[..k + 1][..k] == order[..k];
    } else {
      assert order[..k] == order;
    }
  }

  /** The report of a pass aborted at entry `i`: everything attempted is
      stale, is a prefix of the stale list, and only its last entry failed. */
  lemma AbortedPass(order: seq<ImageId>, m: map<ImageId, Time>, cutoff: Time,
                    delete: ImageId -> DeleteReply, i: nat, before: seq<ImageId>)
    requires forall j :: 0 <= j < |order| ==> order[j] in m
    requires i < |order| && m[order[i]] < cutoff
    requires before == Stale(order[..i], m, cutoff)
    requires AllStale(before, m, cutoff) && AllTolerated(before, delete)
    ensures var a := before + [order[i]];
            && AllStale(a, m, cutoff)
            && a <= Stale(order, m, cutoff)
            && a[..|a| - 1] == before
            && AllTolerated(a[..|a| - 1], delete)
  {
    StaleStep(order, m, cutoff, i);
    StalePrefix(order, m, cutoff, i + 1);
    var a := before + [order[i]];
    assert a[..|a| - 1] == before;
  }

  /** `sweep`: attempt deletion of every stale entry in order. A tolerated
      failure lets the pass continue; any other status re-raises, ending the
      pass after the entry that caused it. Entries at or after the cutoff
      are never attempted. */
  method Sweep(s: State, maxAge: int, now: Time, order: seq<ImageId>, delete: ImageId -> DeleteReply)
    returns (report: SweepReport)
    requires Enumerates(order, s.lastUsed)
    ensures AllStale(report.attempted, s.lastUsed, now - maxAge)
    ensures report.attempted <= Stale(order, s.lastUsed, now - maxAge)
    ensures report.aborted.None? ==>
              && report.attempted == Stale(order, s.lastUsed, now - maxAge)
              && AllTolerated(report.attempted, delete)
    ensures report.aborted.Some? ==>
              && |report.attempted| > 0
              && delete(report.attempted[|report.attempted| - 1]) == Failed(report.aborted.value)
              && !Tolerated(delete(report.attempted[|report.attempted| - 1]))
              && AllTolerated(report.attempted[..|report.attempted| - 1], delete)
    ensures (forall k :: k in s.lastUsed ==> Tolerated(delete(k))) ==>
              && report.aborted.None?
              && (forall k :: k in report.attempted <==> k in s.lastUsed && s.lastUsed[k] < now - maxAge)
              && NoDuplicates(report.attempted)
  {
    var cutoff := now - maxAge;
    var attempted: seq<ImageId> := [];
    var i := 0;
    while i < |order|
      invariant 0 <= i <= |order|
      invariant attempted == Stale(order[..i], s.lastUsed, cutoff)
      invariant AllTolerated(attempted, delete)
      invariant AllStale(attempted, s.lastUsed, cutoff)
    {
      var image := order[i];
      StaleStep(order, s.lastUsed, cutoff, i);
      if s.lastUsed[image] < cutoff {
        var reply := delete(image);
        if !Tolerated(reply) {
          AbortedPass(order, s.lastUsed, cutoff, delete, i, attempted);
          return SweepReport(attempted + [image], Some(reply.status));
        }
        attempted := attempted + [image];
      }
      i := i + 1;
    }
    assert order[..i] == order;
    StaleIsExact(order, s.lastUsed, cutoff);
    report := SweepReport(attempted, None);
  }
}
