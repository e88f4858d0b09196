/** A search delivers its snapshot exactly once, whatever happens between its pages. */
module Paging {
  import opened Common
  import opened Tables
  import opened Engine
  import opened Effects
  import opened Runs

  /** The handles that the FindNext calls on session `h` from `a` up to `b` returned, in order. */
  function Delivered(r: Run, h: nat, a: nat, b: nat): seq<nat>
    requires a <= b <= |r.calls| == |r.replies|
    decreases b
  {
    if a == b then []
    else
      var call, reply := r.calls[b - 1], r.replies[b - 1];
      Delivered(r, h, a, b - 1) +
      if call.FindNext? && call.session == h && reply.out.Found? then reply.out.handles else []
  }

  /** How many handles those calls asked for together. */
  function Asked(r: Run, h: nat, a: nat, b: nat): nat
    requires a <= b <= |r.calls|
    decreases b
  {
    if a == b then 0
    else
      var call := r.calls[b - 1];
      Asked(r, h, a, b - 1) + if call.FindNext? && call.session == h then call.max else 0
  }

  /** A call that would end the search on session `h`. */
  predicate EndsSearch(call: Call, h: nat) {
    call == FindFinal(h) || call == CloseSession(h) || call == Finalize(false)
  }

  /** Cell `i` is session `h` with a search over `snapshot`, of which `delivered` handles are out. */
  ghost predicate Searching(s: State, i: nat, h: nat, snapshot: seq<nat>, delivered: nat) {
    && i < MAX_SESSIONS && s.up && s.sessions[i].Used? && s.sessions[i].handle == h
    && var f := s.sessions[i].item.find;
       f.active && f.count == |snapshot| && f.results[..f.count] == snapshot && f.index == delivered
  }

  lemma FindInitStarts(c: Crypto, s: State, h: nat) returns (i: nat)
    requires Step(c, s, FindInit(h)).reply.rv == OK
    ensures Searching(Step(c, s, FindInit(h)).state, i, h, Snapshot(s.store.objects), 0)
  {
    i := GetSession(s, h).i;
    var hs := Snapshot(s.store.objects);
    var f := s.sessions[i].item.find;
    assert (hs + f.results[|hs|..])[..|hs|] == hs;
  }

  lemma SearchStarts(c: Crypto, r: Run, j: nat, h: nat) returns (i: nat)
    requires IsRun(c, r) && j < |r.calls| && r.calls[j] == FindInit(h) && r.replies[j].rv == OK
    ensures Searching(r.states[j + 1], i, h, Snapshot(r.states[j].store.objects), 0)
  {
    assert StepAt(c, r, j);
    i := FindInitStarts(c, r.states[j], h);
  }

  lemma SliceOfFront(s: seq<nat>, count: nat, a: nat, b: nat)
    requires a <= b <= count <= |s|
    ensures s[a..b] == s[..count][a..b]
  {
  }

  lemma PageDelivers(c: Crypto, s: State, i: nat, h: nat, max: nat, snapshot: seq<nat>, n: nat)
    requires Searching(s, i, h, snapshot, n) && Distinct(s.sessions)
    ensures var Outcome(after, reply) := Step(c, s, FindNext(h, max));
            var m := Min(max, |snapshot| - n);
            Searching(after, i, h, snapshot, n + m) && reply == Reply(OK, Found(snapshot[n..n + m]))
  {
    IndexOfCell(s.sessions, i);
    var f := s.sessions[i].item.find;
    var m := Min(max, |snapshot| - n);
    SliceOfFront(f.results, f.count, n, n + m);
  }

  lemma OthersKeepSearch(s: State, call: Call, reply: Reply, e: SessionEffect, after: State,
                         i: nat, h: nat, snapshot: seq<nat>, n: nat)
    requires SessionEffectOk(s, call, reply, e) && SessionsAfter(s, e, after) && after.up
    requires Searching(s, i, h, snapshot, n) && !EndsSearch(call, h) && !(call.FindNext? && call.session == h)
    requires Distinct(s.sessions)
    ensures Searching(after, i, h, snapshot, n)
  {
    assert SessionEffectIs(s, call, reply, e);
    IndexOfCell(s.sessions, i);
  }

  /** One call of a run, seen from a search that it does not end. */
  lemma SearchStep(c: Crypto, r: Run, k: nat, i: nat, h: nat, snapshot: seq<nat>, n: nat) returns (m: nat)
    requires IsRun(c, r) && k < |r.calls| && r.states[k].sessionsIssued < TWO64
    requires Searching(r.states[k], i, h, snapshot, n) && !EndsSearch(r.calls[k], h)
    ensures n <= m <= |snapshot| && Searching(r.states[k + 1], i, h, snapshot, m)
    ensures Delivered(r, h, k, k + 1) == snapshot[n..m]
    ensures m == Min(n + Asked(r, h, k, k + 1), |snapshot|)
  {
    RunSound(c, r, k);
    var call := r.calls[k];
    assert Delivered(r, h, k, k) == [];
    if call.FindNext? && call.session == h {
      assert StepAt(c, r, k);
      PageDelivers(c, r.states[k], i, h, call.max, snapshot, n);
      m := n + Min(call.max, |snapshot| - n);
    } else {
      UpAt(c, r, k);
      var e := SessionsAt(c, r, k);
      OthersKeepSearch(r.states[k], call, r.replies[k], e, r.states[k + 1], i, h, snapshot, n);
      m := n;
    }
  }

  /** The pages before the last call and the page of the last call are the pages together. */
  lemma PagesAdd(r: Run, h: nat, a: nat, b: nat, snapshot: seq<nat>, n: nat, m: nat)
    requires a < b <= |r.calls| == |r.replies| && n <= m <= |snapshot|
    requires Delivered(r, h, a, b - 1) == snapshot[..n] && n == Min(Asked(r, h, a, b - 1), |snapshot|)
    requires Delivered(r, h, b - 1, b) == snapshot[n..m] && m == Min(n + Asked(r, h, b - 1, b), |snapshot|)
    ensures Delivered(r, h, a, b) == snapshot[..m] && m == Min(Asked(r, h, a, b), |snapshot|)
  {
    assert Delivered(r, h, b - 1, b - 1) == [];
    assert snapshot[..n] + snapshot[n..m] == snapshot[..m];
  }

  lemma {:induction false} SearchProgress(c: Crypto, r: Run, j: nat, k: nat, h: nat) returns (i: nat)
    requires IsRun(c, r) && j < k <= |r.calls| && r.states[k].sessionsIssued < TWO64
    requires r.calls[j] == FindInit(h) && r.replies[j].rv == OK
    requires forall m :: j < m < k ==> !EndsSearch(r.calls[m], h)
    ensures var snapshot := Snapshot(r.states[j].store.objects);
            var n := Min(Asked(r, h, j + 1, k), |snapshot|);
            Delivered(r, h, j + 1, k) == snapshot[..n] && Searching(r.states[k], i, h, snapshot, n)
    decreases k
  {
    var snapshot := Snapshot(r.states[j].store.objects);
    if k == j + 1 {
      i := SearchStarts(c, r, j, h);
    } else {
      RunCounts(c, r, k - 1, k);
      i := SearchProgress(c, r, j, k - 1, h);
      var n := Min(Asked(r, h, j + 1, k - 1), |snapshot|);
      var m := SearchStep(c, r, k - 1, i, h, snapshot, n);
      PagesAdd(r, h, j + 1, k, snapshot, n, m);
    }
  }

  /**
   Exactly once. After a FindInit, and for as long as nothing ends the search, the pages together are the front
   of the snapshot taken at the FindInit, as long as was asked for or the whole of it, without repetition,
   whatever objects were created or destroyed and whatever other sessions did in between.
   */
  lemma PagesAreTheSnapshot(c: Crypto, r: Run, j: nat, k: nat, h: nat)
    requires IsRun(c, r) && j < k <= |r.calls| && r.states[k].sessionsIssued < TWO64
    requires r.states[k].store.issued <= TWO28
    requires r.calls[j] == FindInit(h) && r.replies[j].rv == OK
    requires forall m :: j < m < k ==> !EndsSearch(r.calls[m], h)
    ensures var snapshot := Snapshot(r.states[j].store.objects);
            var d := Delivered(r, h, j + 1, k);
            && d == snapshot[..Min(Asked(r, h, j + 1, k), |snapshot|)]
            && (forall a, b :: 0 <= a < b < |d| ==> d[a] != d[b])
            && (forall g :: g in d ==> Live(r.states[j].store.objects, g))
  {
    var i := SearchProgress(c, r, j, k, h);
    RunCounts(c, r, j, k);
    RunSound(c, r, j);
    HandlesAreLive(r.states[j].store.objects);
  }

  /** The snapshot is the first hundred live handles in table order: all of them when there are no more. */
  lemma SnapshotIsFront(t: ObjectTable)
    ensures Snapshot(t) <= Handles(t)
    ensures |Snapshot(t)| <= 100 && (Count(t) >= 100 ==> |Snapshot(t)| == 100)
    ensures Count(t) <= 100 ==> forall h :: h in Snapshot(t) <==> Live(t, h)
  {
    HandlesAreLive(t);
    assert Handles(t)[..|Handles(t)|] == Handles(t);
  }
}
