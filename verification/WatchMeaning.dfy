/** A poll, name by name and gap by gap. */
module WatchMeaning {
  import opened Records
  import opened Text
  import opened Sorting
  import opened WatchRecords
  import opened WatchState
  import opened WatchPolls

  // -- which names a poll reads, and what becomes of them

  /** A record's file name. */
  ghost predicate Named(name: string) {
    |name| >= 5 && name[|name| - 5..] == ".json" && name[0] != '.'
  }

  /** Not finished, and, if it failed to parse before, due to be read again. */
  ghost predicate Due(s: State, look: Look, name: string) {
    name !in s.done && (name in s.againAt ==> s.againAt[name] <= look.clock(Scan))
  }

  /** What a read makes of a name: one that fails to parse for the first time waits; any other is finished, on what its file held;
      a continuity gap is pending, unchecked. */
  ghost predicate ReadOnce(s: State, t: State, look: Look, since: int, reread: nat, name: string) {
    && ReadsOf(t, name) == ReadsOf(s, name) + 1
    && (if look.content(name).Unparsed? && name !in s.againAt
        then name !in t.done && name in t.againAt && t.againAt[name] == look.clock(Retry(name)) + reread
        else name in t.done && name !in t.againAt && name in t.finished
             && name in t.held && t.held[name] == Held(look.content(name), look.wall, since, name in s.againAt)
             && (t.finished[name].Gap? ==> Pending(name, t.finished[name].from, t.finished[name].to, 0, false) in t.pending))
  }

  ghost predicate LeftAlone(s: State, t: State, name: string) {
    && ReadsOf(t, name) == ReadsOf(s, name) && (name in t.done <==> name in s.done)
    && (name in t.againAt <==> name in s.againAt) && (name in s.againAt ==> t.againAt[name] == s.againAt[name])
    && (name in t.finished <==> name in s.finished) && (name in s.finished ==> t.finished[name] == s.finished[name])
    && (name in t.held <==> name in s.held) && (name in s.held ==> t.held[name] == s.held[name])
  }

  lemma {:induction false} NextLeaves(s: State, look: Look, since: int, reread: nat, name: string)
    ensures var t := NextState(s, look, since, reread, name);
            && (forall n :: n != name ==> LeftAlone(s, t, n))
            && (forall p :: p in s.pending ==> p in t.pending)
  {
  }

  lemma {:induction false} NextReads(s: State, look: Look, since: int, reread: nat, name: string)
    ensures var t := NextState(s, look, since, reread, name);
            if Due(s, look, name) then ReadOnce(s, t, look, since, reread, name) else t == s
  {
    var t := NextState(s, look, since, reread, name);
    if Due(s, look, name) {
      var o := OutcomeIn(s, look, name, since);
      JudgedMeans(Held(look.content(name), look.wall, since, name in s.againAt), name);
      if o.Gap? { assert t.pending[|s.pending|] == Pending(name, o.from, o.to, 0, false); }
    }
  }

  lemma {:induction false} ReadThenLeft(s: State, t: State, u: State, look: Look, since: int, reread: nat, n: string)
    requires ReadOnce(s, t, look, since, reread, n) && LeftAlone(t, u, n) && forall p :: p in t.pending ==> p in u.pending
    ensures ReadOnce(s, u, look, since, reread, n)
  {
  }

  lemma {:induction false} LeftThenRead(s: State, t: State, u: State, look: Look, since: int, reread: nat, n: string)
    requires LeftAlone(s, t, n) && ReadOnce(t, u, look, since, reread, n)
    ensures ReadOnce(s, u, look, since, reread, n) && (Due(s, look, n) <==> Due(t, look, n))
  {
  }

  ghost predicate BatchReads(s: State, t: State, look: Look, since: int, reread: nat, names: seq<string>, n: string) {
    if n in names && Due(s, look, n) then ReadOnce(s, t, look, since, reread, n) else LeftAlone(s, t, n)
  }

  lemma {:induction false} BatchMeans(s: State, look: Look, since: int, reread: nat, names: seq<string>, n: string)
    requires NoDuplicates(names)
    ensures BatchReads(s, StateAfter(s, look, since, reread, names), look, since, reread, names, n)
    ensures forall p :: p in s.pending ==> p in StateAfter(s, look, since, reread, names).pending
  {
    if names != [] {
      var front, name := names[..|names| - 1], names[|names| - 1];
      assert names == front + [name];
      assert NoDuplicates(front) && name !in front;
      var t := StateAfter(s, look, since, reread, front);
      BatchMeans(s, look, since, reread, front, n);
      BatchMeans(s, look, since, reread, front, name);
      NextReads(t, look, since, reread, name);
      NextLeaves(t, look, since, reread, name);
      var u := StateAfter(s, look, since, reread, names);
      assert u == NextState(t, look, since, reread, name);
      if n == name {
        if Due(s, look, n) { LeftThenRead(s, t, u, look, since, reread, n); }
      } else if n in front && Due(s, look, n) {
        ReadThenLeft(s, t, u, look, since, reread, n);
      }
    }
  }

  lemma {:induction false} NamedIs(name: string)
    ensures IsRecordName(name) <==> Named(name)
  {
    assert |".json"| == 5;
    if |name| >= 5 { assert StartsWith(name, ".") <==> name[0] == '.'; }
  }

  lemma {:induction false} RecordNamesDistinct(entries: seq<string>)
    requires NoDuplicates(entries)
    ensures NoDuplicates(RecordNames(entries))
  {
    if entries != [] {
      assert entries == [entries[0]] + entries[1..];
      RecordNamesDistinct(entries[1..]);
      assert entries[0] !in RecordNames(entries[1..]);
    }
  }

  /** A poll reads exactly the folder's record files that are due, once each; every other name is left alone. */
  lemma {:induction false} PollReads(s: State, look: Look, since: int, reread: nat, n: string)
    requires look.entries.Some? && NoDuplicates(look.entries.value)
    ensures var t := AfterRecords(s, look, since, reread);
            if n in look.entries.value && Named(n) && Due(s, look, n) then ReadOnce(s, t, look, since, reread, n) else LeftAlone(s, t, n)
  {
    var entries := look.entries.value;
    RecordNamesDistinct(entries);
    LexOrder();
    SortElements(RecordNames(entries), LexLe);
    BatchMeans(s, look, since, reread, Sort(RecordNames(entries), LexLe), n);
    NamedIs(n);
  }

  // -- what becomes of each pending gap

  /** The reply and the passes at hand justify the gap. */
  ghost predicate Covered(p: Pending, look: Look, passes: set<string>) {
    && p.from <= p.to && look.reply(p.name).Boxes?
    && forall b :: b in look.reply(p.name).boxes && Concerned(b, p.from, p.to) ==> b.name in passes
  }

  /** A gap that is not due stays; a due one that is justified is cleared on this reply and these passes; any other has been
      checked once and waits. */
  ghost predicate GapHandled(s: State, t: State, look: Look, wait: nat, p: Pending) {
    if look.clock(GapCheck(p.name)) < p.checkAfter then p in t.pending
    else if Covered(p, look, s.passBoxes) then
      p.name in t.cleared && t.cleared[p.name] == Evidence(look.reply(p.name), s.passBoxes) && p.name !in PendingNames(t.pending)
    else !p.checkedOnce && Pending(p.name, p.from, p.to, look.clock(GapAgain(p.name)) + wait, true) in t.pending
  }

  lemma {:induction false} CoveredIs(p: Pending, look: Look, passes: set<string>)
    ensures Covered(p, look, passes) <==> Justified(p.from, p.to, look.reply(p.name), passes)
  {
    JustifiedMeans(p.from, p.to, look.reply(p.name), passes);
  }

  /** Pending names are distinct, and none was cleared. */
  ghost predicate Open(s: State) {
    DistinctPending(s.pending) && forall p :: p in s.pending ==> p.name !in s.cleared
  }

  lemma {:induction false} ClearOpen(s: State, i: nat, reply: Reply)
    requires Open(s) && i < |s.pending|
    ensures var u := AfterClear(s, i, reply);
            Open(u) && PendingNames(u.pending) <= PendingNames(s.pending) - {s.pending[i].name}
  {
    var u, p := AfterClear(s, i, reply), s.pending[i];
    assert p in s.pending;
    forall q | q in u.pending ensures q in s.pending && q.name != p.name {
      var k :| 0 <= k < |u.pending| && u.pending[k] == q;
      assert q == s.pending[if k < i then k else k + 1];
    }
    forall k, l | 0 <= k < l < |u.pending| ensures u.pending[k].name != u.pending[l].name {
      assert u.pending[k] == s.pending[if k < i then k else k + 1] && u.pending[l] == s.pending[if l < i then l else l + 1];
    }
  }

  lemma {:induction false} WaitOpen(s: State, i: nat, checkAfter: int)
    requires Open(s) && i < |s.pending|
    ensures var u := AfterWait(s, i, checkAfter); Open(u) && PendingNames(u.pending) <= PendingNames(s.pending)
  {
    var u := AfterWait(s, i, checkAfter);
    forall q | q in u.pending ensures q.name in PendingNames(s.pending) && q.name !in u.cleared {
      var k :| 0 <= k < |u.pending| && u.pending[k] == q;
      assert s.pending[k] in s.pending && s.pending[k].name == q.name;
    }
    forall k, l | 0 <= k < l < |u.pending| ensures u.pending[k].name != u.pending[l].name {
      assert u.pending[k].name == s.pending[k].name && u.pending[l].name == s.pending[l].name;
    }
  }

  lemma {:induction false} OneGapOpen(s: State, look: Look, wait: nat, i: nat)
    requires Open(s) && i < |s.pending|
    ensures var u := OneGap(s, look, wait, i);
            && Open(u) && PendingNames(u.pending) <= PendingNames(s.pending)
            && (Clears(s, look, i) ==> s.pending[i].name !in PendingNames(u.pending))
  {
    var p := s.pending[i];
    if Clears(s, look, i) {
      ClearOpen(s, i, look.reply(p.name));
    } else {
      WaitOpen(s, i, look.clock(GapAgain(p.name)) + wait);
    }
  }

  /** What going on keeps: the first `i` gaps, and what was cleared. */
  ghost predicate Kept(s: State, t: State, i: nat) {
    && i <= |s.pending| && i <= |t.pending| && t.pending[..i] == s.pending[..i]
    && PendingNames(t.pending) <= PendingNames(s.pending)
    && (forall n :: n in s.cleared ==> n in t.cleared && t.cleared[n] == s.cleared[n])
  }

  lemma {:induction false} OneGapKept(s: State, look: Look, wait: nat, i: nat)
    requires Open(s) && i < |s.pending|
    ensures Kept(s, OneGap(s, look, wait, i), i)
  {
    OneGapOpen(s, look, wait, i);
    var u := OneGap(s, look, wait, i);
    assert s.pending[i] in s.pending;
    assert u.pending[..i] == s.pending[..i];
  }

  lemma {:induction false} KeptTwice(s: State, u: State, t: State, i: nat, j: nat)
    requires Kept(s, u, i) && Kept(u, t, j) && i <= j
    ensures Kept(s, t, i)
  {
    assert t.pending[..i] == t.pending[..j][..i] && u.pending[..j][..i] == u.pending[..i];
  }

  lemma {:induction false} GapsKept(s: State, look: Look, wait: nat, i: nat)
    requires Open(s) && i <= |s.pending|
    ensures Kept(s, GapsFrom(s, look, wait, i).state, i)
    decreases |s.pending| - i
  {
    if i < |s.pending| && !Stops(s, look, i) {
      var u, j := OneGap(s, look, wait, i), if Clears(s, look, i) then i else i + 1;
      OneGapOpen(s, look, wait, i);
      OneGapKept(s, look, wait, i);
      GapsKept(u, look, wait, j);
      KeptTwice(s, u, GapsFrom(u, look, wait, j).state, i, j);
    }
  }

  lemma {:induction false} FirstHandled(s: State, look: Look, wait: nat, i: nat)
    requires Open(s) && i < |s.pending|
    requires !Stops(s, look, i)
    ensures GapHandled(s, GapsFrom(s, look, wait, i).state, look, wait, s.pending[i])
  {
    var u, j := OneGap(s, look, wait, i), if Clears(s, look, i) then i else i + 1;
    var t := GapsFrom(u, look, wait, j).state;
    CoveredIs(s.pending[i], look, s.passBoxes);
    OneGapOpen(s, look, wait, i);
    GapsKept(u, look, wait, j);
    if Clears(s, look, i) {
      assert s.pending[i].name in u.cleared;
    } else {
      assert t.pending[..i + 1][i] == u.pending[i];
      assert u.pending[i] in t.pending;
    }
  }

  lemma {:induction false} LaterGap(s: State, look: Look, wait: nat, i: nat, k: nat) returns (l: nat)
    requires i < k < |s.pending| && !Stops(s, look, i)
    ensures var u, j := OneGap(s, look, wait, i), if Clears(s, look, i) then i else i + 1;
            j <= l < |u.pending| && u.pending[l] == s.pending[k] && u.passBoxes == s.passBoxes
  {
    l := if Clears(s, look, i) then k - 1 else k;
  }

  lemma {:induction false} GapsMeanFrom(s: State, look: Look, wait: nat, i: nat, k: nat)
    requires Open(s) && i <= k < |s.pending|
    requires GapsFrom(s, look, wait, i).stop.None?
    ensures GapHandled(s, GapsFrom(s, look, wait, i).state, look, wait, s.pending[k])
    decreases |s.pending| - i
  {
    if k == i {
      FirstHandled(s, look, wait, i);
    } else {
      var u, j := OneGap(s, look, wait, i), if Clears(s, look, i) then i else i + 1;
      var l := LaterGap(s, look, wait, i, k);
      OneGapOpen(s, look, wait, i);
      GapsMeanFrom(u, look, wait, j, l);
    }
  }

  /** In a poll that no gap stops, each pending gap is left, cleared or put off as it should be, by the boxes it concerns. */
  lemma {:induction false} GapsMean(s: State, look: Look, wait: nat, p: Pending)
    requires Sound(s) && p in s.pending && GapsFrom(s, look, wait, 0).stop.None?
    ensures GapHandled(s, GapsFrom(s, look, wait, 0).state, look, wait, p)
  {
    var k :| 0 <= k < |s.pending| && s.pending[k] == p;
    GapsMeanFrom(s, look, wait, 0, k);
  }

  /** And a gap stops the poll exactly if it is due, was checked before, and is not justified. */
  lemma {:induction false} GapStopMeans(s: State, look: Look, wait: nat)
    ensures GapsFrom(s, look, wait, 0).stop.Some? <==>
            exists p :: p in s.pending && look.clock(GapCheck(p.name)) >= p.checkAfter && p.checkedOnce && !Covered(p, look, s.passBoxes)
  {
    StopIsFirst(s, look, wait, 0);
    forall p ensures StopsOn(look, p, s.passBoxes) <==>
                       look.clock(GapCheck(p.name)) >= p.checkAfter && p.checkedOnce && !Covered(p, look, s.passBoxes)
    {
      CoveredIs(p, look, s.passBoxes);
    }
    if p :| p in s.pending && StopsOn(look, p, s.passBoxes) {
      var k :| 0 <= k < |s.pending| && s.pending[k] == p;
      assert AnyStop(s, look, 0);
    }
    if AnyStop(s, look, 0) {
      var k :| 0 <= k < |s.pending| && StopsOn(look, s.pending[k], s.passBoxes);
      assert s.pending[k] in s.pending;
    }
  }
}
