/** The states the watch reader goes through, and the fail-closed invariant every one of them keeps. */
module WatchState {
  import opened Records
  import opened Text
  import opened WatchRecords

  datatype Pending = Pending(name: string, from: int, to: int, checkAfter: int, checkedOnce: bool)
  /** What a gap was cleared on. */
  datatype Evidence = Evidence(reply: Reply, passes: set<string>)

  /** The reader's fields, with the history of its reads: how often each name was read, what finished names were judged
      to be, what their files held at that read, and on what evidence gaps were cleared. */
  datatype State = State(done: set<string>, againAt: map<string, int>, passBoxes: set<string>, pending: seq<Pending>,
                         timesRead: map<string, nat>, finished: map<string, Outcome>, held: map<string, Held>, cleared: map<string, Evidence>)

  const BEGINNING := State({}, map[], {}, [], map[], map[], map[], map[])

  function PendingNames(pending: seq<Pending>): set<string> {
    set p | p in pending :: p.name
  }

  /** No name is read more than twice, and a second time only because it did not parse at first. */
  ghost predicate ReadsSound(s: State) {
    && s.done == s.finished.Keys && s.done !! s.againAt.Keys && s.timesRead.Keys == s.done + s.againAt.Keys
    && (forall n :: n in s.againAt ==> s.timesRead[n] == 1)
    && (forall n :: n in s.done ==> 1 <= s.timesRead[n] <= 2)
  }

  /** The PASS boxes are exactly the boxes of finished PASS records. */
  ghost predicate PassesSound(s: State) {
    && (forall b :: b in s.passBoxes ==> exists n :: n in s.finished && s.finished[n] == Passed(BOX, b))
    && (forall n :: n in s.finished && s.finished[n].Passed? && s.finished[n].kind == BOX ==> s.finished[n].subject in s.passBoxes)
  }

  ghost predicate DistinctPending(pending: seq<Pending>) {
    forall i, j :: 0 <= i < j < |pending| ==> pending[i].name != pending[j].name
  }

  /** A gap is pending or was cleared because every box that needed one had a PASS. */
  ghost predicate GapsSound(s: State) {
    && DistinctPending(s.pending)
    && (forall p :: p in s.pending ==> p.name in s.finished && s.finished[p.name] == Gap(p.from, p.to) && p.name !in s.cleared)
    && (forall n :: n in s.cleared ==> ClearedSound(s, n))
    && (forall n :: n in s.finished && s.finished[n].Gap? ==> n in PendingNames(s.pending) || n in s.cleared)
  }

  ghost predicate ClearedSound(s: State, n: string)
    requires n in s.cleared
  {
    && n in s.finished && s.finished[n].Gap? && s.cleared[n].passes <= s.passBoxes
    && Justified(s.finished[n].from, s.finished[n].to, s.cleared[n].reply, s.cleared[n].passes)
  }

  /** Each finished name's outcome is what its file held. */
  ghost predicate HeldSound(s: State) {
    forall n :: n in s.finished ==> n in s.held && exists date :: Means(s.held[n], n, s.finished[n], date)
  }

  ghost predicate Sound(s: State) {
    ReadsSound(s) && PassesSound(s) && GapsSound(s) && HeldSound(s)
  }

  /** Nothing finished calls for a stop: each finished record is a PASS, is older, or is a continuity gap. */
  ghost predicate FailClosed(s: State) {
    forall n :: n in s.finished ==> s.finished[n].Passed? || s.finished[n].Older? || s.finished[n].Gap?
  }

  // -- reading one name

  function ReadsOf(s: State, name: string): nat {
    if name in s.timesRead then s.timesRead[name] else 0
  }

  function AfterRead(s: State, name: string, o: Outcome, h: Held, retryAt: int): State {
    var t := s.(timesRead := s.timesRead[name := ReadsOf(s, name) + 1]);
    if o.Deferred? then t.(againAt := s.againAt[name := retryAt])
    else t.(done := s.done + {name}, againAt := s.againAt - {name}, finished := s.finished[name := o], held := s.held[name := h],
            passBoxes := if o.Passed? && o.kind == BOX then s.passBoxes + {o.subject} else s.passBoxes,
            pending := if o.Gap? then s.pending + [Pending(name, o.from, o.to, 0, false)] else s.pending)
  }

  lemma {:induction false} ReadKeepsReads(s: State, name: string, o: Outcome, h: Held, retryAt: int)
    requires ReadsSound(s) && name !in s.done && (o.Deferred? ==> name !in s.againAt)
    ensures ReadsSound(AfterRead(s, name, o, h, retryAt))
  {
  }

  lemma {:induction false} ReadKeepsPasses(s: State, name: string, o: Outcome, h: Held, retryAt: int)
    requires PassesSound(s) && name !in s.finished
    ensures PassesSound(AfterRead(s, name, o, h, retryAt))
  {
    var t := AfterRead(s, name, o, h, retryAt);
    forall b | b in t.passBoxes ensures exists n :: n in t.finished && t.finished[n] == Passed(BOX, b) {
      if b in s.passBoxes {
        var n :| n in s.finished && s.finished[n] == Passed(BOX, b);
        assert n in t.finished && t.finished[n] == Passed(BOX, b);
      } else {
        assert name in t.finished && t.finished[name] == Passed(BOX, b);
      }
    }
  }

  lemma {:induction false} ReadKeepsGaps(s: State, name: string, o: Outcome, h: Held, retryAt: int)
    requires GapsSound(s) && name !in s.finished
    ensures GapsSound(AfterRead(s, name, o, h, retryAt))
  {
    var t := AfterRead(s, name, o, h, retryAt);
    if !o.Deferred? {
      assert forall p :: p in t.pending ==> p in s.pending || (o.Gap? && p == Pending(name, o.from, o.to, 0, false));
      assert forall p :: p in s.pending ==> p in t.pending;
      forall n | n in t.cleared ensures ClearedSound(t, n) { assert ClearedSound(s, n); }
      forall n | n in t.finished && t.finished[n].Gap? ensures n in PendingNames(t.pending) || n in t.cleared {
        if n == name { assert t.pending[|s.pending|].name == n; }
      }
    } else {
      forall n | n in t.cleared ensures ClearedSound(t, n) { assert ClearedSound(s, n); }
    }
  }

  lemma {:induction false} ReadKeepsHeld(s: State, name: string, o: Outcome, h: Held, retryAt: int)
    requires HeldSound(s) && (!o.Deferred? ==> exists date :: Means(h, name, o, date))
    ensures HeldSound(AfterRead(s, name, o, h, retryAt))
  {
  }

  lemma {:induction false} ReadKeepsSound(s: State, name: string, o: Outcome, h: Held, retryAt: int)
    requires Sound(s) && name !in s.done && (o.Deferred? ==> name !in s.againAt)
    requires !o.Deferred? ==> exists date :: Means(h, name, o, date)
    ensures Sound(AfterRead(s, name, o, h, retryAt))
    ensures FailClosed(s) && !o.Bad? ==> FailClosed(AfterRead(s, name, o, h, retryAt))
    ensures s.passBoxes <= AfterRead(s, name, o, h, retryAt).passBoxes
  {
    ReadKeepsReads(s, name, o, h, retryAt);
    ReadKeepsPasses(s, name, o, h, retryAt);
    ReadKeepsGaps(s, name, o, h, retryAt);
    ReadKeepsHeld(s, name, o, h, retryAt);
  }

  /** Reading a name not yet finished keeps the history sound, whatever the file holds. */
  lemma {:induction false} ReadStep(s: State, name: string, c: Content, since: int, wall: int, retryAt: int)
    requires Sound(s) && name !in s.done
    ensures var o, h := Judged(c, name, name in s.againAt, since, wall), Held(c, wall, since, name in s.againAt);
            var t := AfterRead(s, name, o, h, retryAt);
            && Sound(t) && s.passBoxes <= t.passBoxes
            && (FailClosed(s) && !o.Bad? ==> FailClosed(t))
  {
    var o, h := Judged(c, name, name in s.againAt, since, wall), Held(c, wall, since, name in s.againAt);
    JudgedMeans(h, name);
    ReadKeepsSound(s, name, o, h, retryAt);
  }

  // -- checking one pending gap

  function AfterClear(s: State, i: nat, reply: Reply): State
    requires i < |s.pending|
  {
    s.(pending := s.pending[..i] + s.pending[i + 1..], cleared := s.cleared[s.pending[i].name := Evidence(reply, s.passBoxes)])
  }

  function AfterWait(s: State, i: nat, checkAfter: int): State
    requires i < |s.pending|
  {
    s.(pending := s.pending[i := s.pending[i].(checkAfter := checkAfter, checkedOnce := true)])
  }

  lemma {:induction false} OneRemoved(pending: seq<Pending>, i: nat)
    requires DistinctPending(pending) && i < |pending|
    ensures var rest := pending[..i] + pending[i + 1..];
            DistinctPending(rest) && forall q :: q in rest <==> q in pending && q.name != pending[i].name
  {
    var rest := pending[..i] + pending[i + 1..];
    assert pending == pending[..i] + [pending[i]] + pending[i + 1..];
    forall q | q in pending && q.name != pending[i].name ensures q in rest {
      assert q in pending[..i] || q == pending[i] || q in pending[i + 1..];
    }
  }

  lemma {:induction false} ClearKeepsGaps(s: State, i: nat, reply: Reply)
    requires GapsSound(s) && i < |s.pending| && Justified(s.pending[i].from, s.pending[i].to, reply, s.passBoxes)
    ensures GapsSound(AfterClear(s, i, reply))
  {
    var t, p := AfterClear(s, i, reply), s.pending[i];
    assert p in s.pending;
    OneRemoved(s.pending, i);
    forall n | n in t.cleared ensures ClearedSound(t, n) {
      if n != p.name { assert ClearedSound(s, n); }
    }
    forall n | n in t.finished && t.finished[n].Gap? ensures n in PendingNames(t.pending) || n in t.cleared {
      if n in PendingNames(s.pending) && n != p.name {
        var q :| q in s.pending && q.name == n;
        assert q in t.pending;
      }
    }
  }

  lemma {:induction false} ClearKeepsSound(s: State, i: nat, reply: Reply)
    requires Sound(s) && i < |s.pending| && Justified(s.pending[i].from, s.pending[i].to, reply, s.passBoxes)
    ensures Sound(AfterClear(s, i, reply))
  {
    ClearKeepsGaps(s, i, reply);
  }

  lemma {:induction false} WaitKeepsSound(s: State, i: nat, checkAfter: int)
    requires Sound(s) && i < |s.pending|
    ensures Sound(AfterWait(s, i, checkAfter))
  {
    WaitKeepsGaps(s, i, checkAfter);
  }

  lemma {:induction false} WaitKeepsGaps(s: State, i: nat, checkAfter: int)
    requires GapsSound(s) && i < |s.pending|
    ensures GapsSound(AfterWait(s, i, checkAfter))
  {
    var t, p := AfterWait(s, i, checkAfter), s.pending[i];
    assert p in s.pending;
    forall k | 0 <= k < |t.pending| ensures t.pending[k].name == s.pending[k].name && t.pending[k].from == s.pending[k].from && t.pending[k].to == s.pending[k].to {}
    forall q | q in t.pending ensures exists r :: r in s.pending && r.name == q.name && r.from == q.from && r.to == q.to {
      var k :| 0 <= k < |t.pending| && t.pending[k] == q;
      assert s.pending[k] in s.pending;
    }
    forall n | n in t.cleared ensures ClearedSound(t, n) { assert ClearedSound(s, n); }
    forall n | n in t.finished && t.finished[n].Gap? ensures n in PendingNames(t.pending) || n in t.cleared {
      if n in PendingNames(s.pending) {
        var r :| r in s.pending && r.name == n;
        var k :| 0 <= k < |s.pending| && s.pending[k] == r;
        assert t.pending[k] in t.pending;
      }
    }
  }

  // -- what the invariant says of a run that has found nothing

  /** No name is read more than twice, and none a second time once it is finished. */
  lemma {:induction false} ReadAtMostTwice(s: State, n: string)
    requires Sound(s) && n in s.timesRead
    ensures s.timesRead[n] <= 2 && (n in s.againAt ==> n !in s.done && s.timesRead[n] == 1)
  {
  }

  /** The gap a continuity record reports, from the record's own fields. */
  ghost predicate GapOf(h: Held, from: int, to: int) {
    && ContinuityHeld(h)
    && from == (if h.content.gapFrom.Some? then h.content.gapFrom.value else h.since)
    && (if h.content.gapTo.Some? then to == h.content.gapTo.value else MadeAt(h, to))
  }

  /** A finished record passes a silent run only as older, as a PASS, whose box then counts as passed, or as a continuity record
      whose own gap is pending, or was cleared on a reply whose boxes concerned by that gap all have passes that still stand. */
  lemma {:induction false} FinishedRecord(s: State, n: string) returns (date: int)
    requires Sound(s) && FailClosed(s) && n in s.done
    ensures n in s.held && MadeAt(s.held[n], date)
    ensures var h := s.held[n];
            || date < h.since
            || (h.content.Parsed? && h.content.verdict == "PASS" && (h.content.kind == "box" ==> h.content.subject in s.passBoxes))
            || exists from, to :: GapOf(h, from, to)
                 && ((exists p :: p in s.pending && p.name == n && p.from == from && p.to == to)
                     || (n in s.cleared && from <= to && s.cleared[n].reply.Boxes?
                         && forall b :: b in s.cleared[n].reply.boxes && Concerned(b, from, to) ==> b.name in s.passBoxes))
  {
    date :| Means(s.held[n], n, s.finished[n], date);
    if s.finished[n].Gap? {
      var from, to := s.finished[n].from, s.finished[n].to;
      assert GapOf(s.held[n], from, to);
      if n in s.cleared {
        assert ClearedSound(s, n);
        WiderJustifies(from, to, s.cleared[n].reply, s.cleared[n].passes, s.passBoxes);
        JustifiedMeans(from, to, s.cleared[n].reply, s.passBoxes);
      } else {
        var p :| p in s.pending && p.name == n;
        assert s.finished[p.name] == Gap(p.from, p.to);
      }
    }
  }

  lemma {:induction false} WiderJustifies(from: int, to: int, reply: Reply, less: set<string>, more: set<string>)
    requires less <= more && Justified(from, to, reply, less)
    ensures Justified(from, to, reply, more)
  {
    forall b | b in reply.boxes ensures !NeedsPass(b, from, to, more) { assert !NeedsPass(b, from, to, less); }
  }

  /** Every box that a cleared record's own gap concerns has a finished PASS record of its own. */
  lemma {:induction false} ClearedBoxPassed(s: State, n: string, b: Box) returns (from: int, to: int, record: string)
    requires Sound(s) && n in s.cleared && n in s.finished
    ensures s.cleared[n].reply.Boxes? && n in s.held && GapOf(s.held[n], from, to) && from <= to
    ensures b in s.cleared[n].reply.boxes && Concerned(b, from, to) ==>
              && record in s.done && record in s.held && s.held[record].content.Parsed? && s.held[record].content.verdict == "PASS"
              && s.held[record].content.kind == "box" && s.held[record].content.subject == b.name
  {
    assert ClearedSound(s, n);
    from, to, record := s.finished[n].from, s.finished[n].to, n;
    JustifiedMeans(from, to, s.cleared[n].reply, s.cleared[n].passes);
    if b in s.cleared[n].reply.boxes && Concerned(b, from, to) {
      record :| record in s.finished && s.finished[record] == Passed(BOX, b.name);
    }
  }
}
