/** What one poll of scripts/pi_watch_stop.py reads and finds, as functions of the reader's state and of what the poll sees. */
module WatchPolls {
  import opened Records
  import opened Text
  import opened Sorting
  import opened WatchRecords
  import opened WatchState

  /** The moments of a poll at which the clock is read. */
  datatype Moment = Scan | Retry(name: string) | GapCheck(name: string) | GapAgain(name: string) | UnitCheck

  /** What one poll finds: the folder's regular files (none if it cannot be read), their contents, the ledger's reply for
      each gap, the watch unit's state, the clock and the wall clock. */
  datatype Look = Look(entries: Option<seq<string>>, content: string -> Content, reply: string -> Reply, unitActive: bool,
                       clock: Moment -> nat, wall: int)

  predicate IsRecordName(name: string) {
    EndsWith(name, ".json") && !StartsWith(name, ".")
  }

  function RecordNames(entries: seq<string>): (r: seq<string>)
    ensures forall n :: n in r <==> n in entries && IsRecordName(n)
  {
    if entries == [] then []
    else
      assert entries == [entries[0]] + entries[1..];
      (if IsRecordName(entries[0]) then [entries[0]] else []) + RecordNames(entries[1..])
  }

  // -- the earliest finding

  datatype Item = Item(when: int, name: string, finding: Finding)

  predicate ItemLe(a: Item, b: Item) {
    a.when < b.when || (a.when == b.when && LexLe(a.name, b.name))
  }

  lemma {:induction false} ItemOrder()
    ensures TotalPreorder(ItemLe)
  {
    forall a, b ensures ItemLe(a, b) || ItemLe(b, a) { LexLeTotal(a.name, b.name); }
    forall a, b, c | ItemLe(a, b) && ItemLe(b, c) ensures ItemLe(a, c) {
      if a.when == b.when == c.when { LexLeTransitive(a.name, b.name, c.name); }
    }
  }

  /** The first of the sorted findings comes before all others. */
  method Earliest(found: seq<Item>) returns (item: Item)
    requires found != []
    ensures item in found && forall i :: i in found ==> ItemLe(item, i)
  {
    ItemOrder();
    SortElements(found, ItemLe);
    SortOrdered(found, ItemLe);
    item := Sort(found, ItemLe)[0];
    forall i | i in found ensures ItemLe(item, i) {
      var sorted := Sort(found, ItemLe);
      var k :| 0 <= k < |sorted| && sorted[k] == i;
      LexLeTotal(item.name, item.name);
    }
  }

  // -- the watch unit

  datatype Sighting = Sighting(at: int, active: bool)

  /** When the unit was first seen down since it was last seen active. */
  function DownSince(sightings: seq<Sighting>): Option<int> {
    if sightings == [] || sightings[|sightings| - 1].active then None
    else
      var before := DownSince(sightings[..|sightings| - 1]);
      if before.Some? then before else Some(sightings[|sightings| - 1].at)
  }

  /** The value is the first sighting of the last unbroken stretch of sightings of a unit that is down. */
  lemma {:induction false} DownSinceIsFirst(sightings: seq<Sighting>)
    ensures var d := DownSince(sightings);
            if d.None? then sightings == [] || sightings[|sightings| - 1].active
            else exists i :: 0 <= i < |sightings| && DownFrom(sightings, i) && d.value == sightings[i].at
  {
    var n := |sightings| - 1;
    if sightings != [] && !sightings[n].active {
      DownSinceIsFirst(sightings[..n]);
      if DownSince(sightings[..n]).Some? {
        var i :| 0 <= i < n && DownFrom(sightings[..n], i) && DownSince(sightings[..n]).value == sightings[..n][i].at;
        assert DownFrom(sightings, i);
      } else {
        assert DownFrom(sightings, n);
      }
    }
  }

  predicate DownFrom(sightings: seq<Sighting>, i: nat)
    requires i < |sightings|
  {
    (forall k :: i <= k < |sightings| ==> !sightings[k].active) && (i == 0 || sightings[i - 1].active)
  }

  function ItemOf(name: string, o: Outcome): Option<Item> {
    if o.Bad? then Some(Item(o.when, name, o.finding)) else None
  }

  // -- a batch of reads as a function of the state it starts in

  function HeldIn(s: State, look: Look, name: string, since: int): Held {
    Held(look.content(name), look.wall, since, name in s.againAt)
  }

  function OutcomeIn(s: State, look: Look, name: string, since: int): Outcome {
    Judged(look.content(name), name, name in s.againAt, since, look.wall)
  }

  /** Whether a poll reads `name`: it is not finished, and if it is to be read again its time has come. */
  predicate ReadsIn(s: State, look: Look, name: string) {
    name !in s.done && (name in s.againAt ==> s.againAt[name] <= look.clock(Scan))
  }

  function NextState(s: State, look: Look, since: int, reread: nat, name: string): State {
    if ReadsIn(s, look, name) then AfterRead(s, name, OutcomeIn(s, look, name, since), HeldIn(s, look, name, since), look.clock(Retry(name)) + reread) else s
  }

  function NextFound(s: State, look: Look, since: int, name: string, found: seq<Item>): seq<Item> {
    var item := ItemOf(name, OutcomeIn(s, look, name, since));
    if ReadsIn(s, look, name) && item.Some? then found + [item.value] else found
  }

  function StateAfter(s: State, look: Look, since: int, reread: nat, names: seq<string>): State {
    if names == [] then s
    else NextState(StateAfter(s, look, since, reread, names[..|names| - 1]), look, since, reread, names[|names| - 1])
  }

  function FoundBy(s: State, look: Look, since: int, reread: nat, names: seq<string>): seq<Item> {
    if names == [] then []
    else
      var front := names[..|names| - 1];
      NextFound(StateAfter(s, look, since, reread, front), look, since, names[|names| - 1], FoundBy(s, look, since, reread, front))
  }

  ghost predicate SeenName(n: string, s: State) {
    n in s.done || n in s.againAt
  }

  ghost predicate AllIn(names: seq<string>, s: State) {
    forall k :: 0 <= k < |names| ==> SeenName(names[k], s)
  }

  /** Every record name of the folder is finished or waits to be read again. */
  ghost predicate AllSeen(entries: seq<string>, s: State) {
    forall n :: n in entries && IsRecordName(n) ==> SeenName(n, s)
  }

  lemma {:induction false} SortedSeen(entries: seq<string>, s: State)
    requires AllIn(Sort(RecordNames(entries), LexLe), s)
    ensures AllSeen(entries, s)
  {
    LexOrder();
    var names := Sort(RecordNames(entries), LexLe);
    SortElements(RecordNames(entries), LexLe);
    forall n | n in entries && IsRecordName(n) ensures SeenName(n, s) {
      var k :| 0 <= k < |names| && names[k] == n;
    }
  }

  /** What reading has come to since `start`, with the findings so far. */
  ghost predicate Batch(start: State, s: State, found: seq<Item>) {
    && Sound(s) && start.passBoxes <= s.passBoxes && start.done <= s.done
    && (found == [] && FailClosed(start) ==> FailClosed(s))
    && Gathered(found, s.finished, s.done - start.done)
  }

  lemma {:induction false} GatherNext(start: set<string>, s: State, look: Look, since: int, reread: nat, name: string, found: seq<Item>)
    requires Gathered(found, s.finished, s.done - start) && s.done == s.finished.Keys && start <= s.done
    ensures var t := NextState(s, look, since, reread, name);
            Gathered(NextFound(s, look, since, name, found), t.finished, t.done - start)
  {
    if ReadsIn(s, look, name) {
      GatherOne(found, s, name, OutcomeIn(s, look, name, since), HeldIn(s, look, name, since), look.clock(Retry(name)) + reread, start);
    }
  }

  lemma {:induction false} NextStep(s: State, look: Look, since: int, reread: nat, name: string)
    requires Sound(s) && ReadsIn(s, look, name)
    ensures Sound(NextState(s, look, since, reread, name))
  {
    OutcomeFits(s, look, name, since);
    ReadKeepsSound(s, name, OutcomeIn(s, look, name, since), HeldIn(s, look, name, since), look.clock(Retry(name)) + reread);
  }

  lemma {:induction false} OutcomeFits(s: State, look: Look, name: string, since: int)
    ensures var o := OutcomeIn(s, look, name, since);
            && (o.Deferred? ==> name !in s.againAt)
            && (!o.Deferred? ==> exists date :: Means(HeldIn(s, look, name, since), name, o, date))
  {
    JudgedMeans(HeldIn(s, look, name, since), name);
  }

  lemma {:induction false} NextGrows(s: State, look: Look, since: int, reread: nat, name: string, found: seq<Item>)
    ensures var t := NextState(s, look, since, reread, name);
            && s.passBoxes <= t.passBoxes && s.done <= t.done
            && (NextFound(s, look, since, name, found) == [] ==> found == [] && (FailClosed(s) ==> FailClosed(t)))
  {
  }

  lemma {:induction false} NextSound(start: State, s: State, look: Look, since: int, reread: nat, name: string, found: seq<Item>)
    requires Batch(start, s, found)
    ensures Batch(start, NextState(s, look, since, reread, name), NextFound(s, look, since, name, found))
  {
    if ReadsIn(s, look, name) { NextStep(s, look, since, reread, name); }
    NextGrows(s, look, since, reread, name, found);
    GatherNext(start.done, s, look, since, reread, name, found);
  }

  lemma {:induction false} NextSeen(names: seq<string>, s: State, look: Look, since: int, reread: nat, name: string)
    requires AllIn(names, s)
    ensures AllIn(names + [name], NextState(s, look, since, reread, name))
  {
    var t, all := NextState(s, look, since, reread, name), names + [name];
    forall k | 0 <= k < |all| ensures SeenName(all[k], t) {
      if k < |names| { assert SeenName(names[k], s); }
    }
  }

  /** A whole batch keeps the history sound, finishes or puts off every name, and finds exactly what calls for a stop. */
  lemma {:induction false} BatchSound(s: State, look: Look, since: int, reread: nat, names: seq<string>)
    requires Sound(s)
    ensures Batch(s, StateAfter(s, look, since, reread, names), FoundBy(s, look, since, reread, names))
    ensures AllIn(names, StateAfter(s, look, since, reread, names))
  {
    if names != [] {
      var front, name := names[..|names| - 1], names[|names| - 1];
      BatchSound(s, look, since, reread, front);
      var t := StateAfter(s, look, since, reread, front);
      assert names == front + [name];
      NextSound(s, t, look, since, reread, name, FoundBy(s, look, since, reread, front));
      NextSeen(front, t, look, since, reread, name);
    }
  }

  /** The items are the findings among the names finished since. */
  ghost predicate Gathered(found: seq<Item>, finished: map<string, Outcome>, newly: set<string>) {
    && (forall i :: i in found ==> i.name in newly && i.name in finished && finished[i.name] == Bad(i.when, i.finding))
    && (forall n :: n in newly ==> n in finished && (finished[n].Bad? ==> Item(finished[n].when, n, finished[n].finding) in found))
  }

  /** `f` is the finding of the newly finished record that calls for a stop and was made first; of records made at one time, the
      one first by name. */
  ghost predicate IsEarliest(f: Finding, finished: map<string, Outcome>, newly: set<string>) {
    exists n :: n in newly && n in finished && finished[n].Bad? && finished[n].finding == f
                && forall m :: m in newly && m in finished && finished[m].Bad? ==>
                     finished[n].when < finished[m].when || (finished[n].when == finished[m].when && LexLe(n, m))
  }

  lemma {:induction false} GatherOne(found: seq<Item>, s: State, name: string, o: Outcome, h: Held, retryAt: int, start: set<string>)
    requires Gathered(found, s.finished, s.done - start) && name !in s.done && name !in s.finished && start <= s.done
    ensures var t, item := AfterRead(s, name, o, h, retryAt), ItemOf(name, o);
            Gathered(if item.Some? then found + [item.value] else found, t.finished, t.done - start)
  {
  }

  function UnreadableFolder(records: string): Finding {
    Finding(COULD_NOT_CHECK, "records", records, "records folder can't be read", records)
  }

  ghost predicate AnyBad(finished: map<string, Outcome>, newly: set<string>) {
    exists n :: n in newly && n in finished && finished[n].Bad?
  }

  /** The state once the folder's records have been read. */
  function AfterRecords(s: State, look: Look, since: int, reread: nat): State {
    if look.entries.None? then s else StateAfter(s, look, since, reread, Sort(RecordNames(look.entries.value), LexLe))
  }

  // -- the pending gaps as a function of the state

  datatype Checked = Checked(state: State, stop: Option<Pending>)

  predicate Clears(s: State, look: Look, i: nat)
    requires i < |s.pending|
  {
    var p := s.pending[i];
    look.clock(GapCheck(p.name)) >= p.checkAfter && Justified(p.from, p.to, look.reply(p.name), s.passBoxes)
  }

  predicate Stops(s: State, look: Look, i: nat)
    requires i < |s.pending|
  {
    var p := s.pending[i];
    look.clock(GapCheck(p.name)) >= p.checkAfter && !Justified(p.from, p.to, look.reply(p.name), s.passBoxes) && p.checkedOnce
  }

  /** One pending gap: one not due is left, a due one is cleared when justified and put off when not. */
  function OneGap(s: State, look: Look, wait: nat, i: nat): State
    requires i < |s.pending|
  {
    var p := s.pending[i];
    if look.clock(GapCheck(p.name)) < p.checkAfter then s
    else if Clears(s, look, i) then AfterClear(s, i, look.reply(p.name))
    else AfterWait(s, i, look.clock(GapAgain(p.name)) + wait)
  }

  /** The pending gaps from the `i`th on, in order; a gap found unjustified a second time stops the poll. */
  function GapsFrom(s: State, look: Look, wait: nat, i: nat): Checked
    decreases |s.pending| - i
  {
    if i >= |s.pending| then Checked(s, None)
    else if Stops(s, look, i) then Checked(s, Some(s.pending[i]))
    else GapsFrom(OneGap(s, look, wait, i), look, wait, if Clears(s, look, i) then i else i + 1)
  }

  /** The clock does not run backwards within a poll. */
  ghost predicate Forward(look: Look) {
    forall n :: look.clock(GapCheck(n)) <= look.clock(GapAgain(n))
  }

  /** Checking gaps changes nothing that was read, and stops only on a gap found unjustified a second time. */
  lemma {:induction false} GapsStop(s: State, look: Look, wait: nat, i: nat)
    ensures var c := GapsFrom(s, look, wait, i);
            && c.state.finished == s.finished && c.state.passBoxes == s.passBoxes && c.state.done == s.done
            && c.state.againAt == s.againAt && c.state.timesRead == s.timesRead
            && (c.stop.Some? ==> StopsOn(look, c.stop.value, s.passBoxes))
    decreases |s.pending| - i
  {
    if i < |s.pending| && !Stops(s, look, i) {
      GapsStop(OneGap(s, look, wait, i), look, wait, if Clears(s, look, i) then i else i + 1);
    }
  }

  ghost predicate StopsOn(look: Look, p: Pending, passes: set<string>) {
    && p.checkedOnce && p.checkAfter <= look.clock(GapCheck(p.name))
    && !Justified(p.from, p.to, look.reply(p.name), passes)
  }

  /** Some pending gap stops the poll. */
  ghost predicate AnyStop(s: State, look: Look, i: nat) {
    exists k :: i <= k < |s.pending| && StopsOn(look, s.pending[k], s.passBoxes)
  }

  // What follows the `i`th gap stays as it is, and moves up by one if that gap goes.

  lemma {:induction false} StopShifts(less: seq<Pending>, more: seq<Pending>, look: Look, passes: set<string>, i: nat, j: nat)
    requires i < |more| && j <= |less| && less[j..] == more[i + 1..] && !StopsOn(look, more[i], passes)
    ensures (exists k :: i <= k < |more| && StopsOn(look, more[k], passes)) <==> exists k :: j <= k < |less| && StopsOn(look, less[k], passes)
  {
    if k :| i <= k < |more| && StopsOn(look, more[k], passes) {
      assert more[i + 1..][k - i - 1] == less[j..][k - i - 1] == less[k - i - 1 + j];
    }
    if k :| j <= k < |less| && StopsOn(look, less[k], passes) {
      assert less[j..][k - j] == more[i + 1..][k - j] == more[k - j + i + 1];
    }
  }

  lemma {:induction false} OneRemovedTail(pending: seq<Pending>, i: nat)
    requires i < |pending|
    ensures (pending[..i] + pending[i + 1..])[i..] == pending[i + 1..]
  {
  }

  function NextGap(s: State, look: Look, i: nat): nat
    requires i < |s.pending|
  {
    if Clears(s, look, i) then i else i + 1
  }

  lemma {:induction false} OthersStay(s: State, look: Look, wait: nat, i: nat)
    requires i < |s.pending|
    ensures var t, j := OneGap(s, look, wait, i), NextGap(s, look, i);
            t.passBoxes == s.passBoxes && j <= |t.pending| && t.pending[j..] == s.pending[i + 1..]
  {
    if Clears(s, look, i) { OneRemovedTail(s.pending, i); }
  }

  lemma {:induction false} StopStays(s: State, look: Look, wait: nat, i: nat)
    requires i < |s.pending| && !Stops(s, look, i)
    ensures AnyStop(s, look, i) <==> AnyStop(OneGap(s, look, wait, i), look, NextGap(s, look, i))
  {
    OthersStay(s, look, wait, i);
    StopShifts(OneGap(s, look, wait, i).pending, s.pending, look, s.passBoxes, i, NextGap(s, look, i));
  }

  lemma {:induction false} FoundLater(less: seq<Pending>, more: seq<Pending>, i: nat, j: nat, p: Pending)
    requires i < |more| && j <= |less| && less[j..] == more[i + 1..] && exists k :: j <= k < |less| && less[k] == p
    ensures exists k :: i <= k < |more| && more[k] == p
  {
    var k :| j <= k < |less| && less[k] == p;
    assert less[j..][k - j] == more[i + 1..][k - j] == more[k - j + i + 1];
  }

  /** Checking the gaps stops exactly when some pending gap is due and found unjustified a second time, and it stops on such a
      gap: neither clearing nor putting off another gap changes that. */
  lemma {:induction false} StopIsFirst(s: State, look: Look, wait: nat, i: nat)
    ensures var stop := GapsFrom(s, look, wait, i).stop;
            && (stop.Some? <==> AnyStop(s, look, i))
            && (stop.Some? ==> exists k :: i <= k < |s.pending| && s.pending[k] == stop.value)
    decreases |s.pending| - i
  {
    if i < |s.pending| && !Stops(s, look, i) {
      var t, j := OneGap(s, look, wait, i), NextGap(s, look, i);
      var stop := GapsFrom(t, look, wait, j).stop;
      assert GapsFrom(s, look, wait, i).stop == stop;
      OthersStay(s, look, wait, i);
      StopIsFirst(t, look, wait, j);
      StopStays(s, look, wait, i);
      if stop.Some? { FoundLater(t.pending, s.pending, i, j, stop.value); }
    }
  }

  ghost predicate AboutGap(f: Finding, p: Pending) {
    f.verdict == COULD_NOT_CHECK && f.kind == WATCH && f.subject == CONTINUITY && f.source == p.name
  }

  ghost predicate AboutUnit(f: Finding, unit: string) {
    f.verdict == COULD_NOT_CHECK && f.kind == WATCH && f.subject == unit && f.source == unit
  }

  /** With this poll's sighting, the unit has been seen down for longer than the grace. */
  ghost predicate UnitDown(sightings: seq<Sighting>, look: Look, grace: nat) {
    var d := DownSince(sightings + [Sighting(look.clock(UnitCheck), look.unitActive)]);
    d.Some? && look.clock(UnitCheck) - d.value > grace
  }

  /** What is found where no record calls for a stop: a gap, else the unit, else nothing. */
  ghost predicate Waited(finding: Option<Finding>, s: State, look: Look, sightings: seq<Sighting>, grace: nat, unit: string) {
    if AnyStop(s, look, 0) then
      finding.Some? && exists p :: p in s.pending && StopsOn(look, p, s.passBoxes) && AboutGap(finding.value, p)
    else if UnitDown(sightings, look, grace) then finding.Some? && AboutUnit(finding.value, unit)
    else finding.None?
  }

  lemma {:induction false} OneGapSound(s: State, look: Look, wait: nat, i: nat)
    requires Sound(s) && i < |s.pending|
    ensures Sound(OneGap(s, look, wait, i))
  {
    var p, t := s.pending[i], OneGap(s, look, wait, i);
    if Clears(s, look, i) {
      assert t == AfterClear(s, i, look.reply(p.name));
      assert Sound(t) by { ClearKeepsSound(s, i, look.reply(p.name)); }
    } else if look.clock(GapCheck(p.name)) >= p.checkAfter {
      assert t == AfterWait(s, i, look.clock(GapAgain(p.name)) + wait);
      assert Sound(t) by { WaitKeepsSound(s, i, look.clock(GapAgain(p.name)) + wait); }
    } else {
      assert t == s;
    }
  }

  lemma {:induction false} GapsKeepSound(s: State, look: Look, wait: nat, i: nat)
    requires Sound(s)
    ensures Sound(GapsFrom(s, look, wait, i).state)
    decreases |s.pending| - i
  {
    if i < |s.pending| && !Stops(s, look, i) {
      OneGapSound(s, look, wait, i);
      GapsKeepSound(OneGap(s, look, wait, i), look, wait, if Clears(s, look, i) then i else i + 1);
    }
  }

  ghost predicate NotOverdue(look: Look, pending: seq<Pending>) {
    forall p :: p in pending ==> look.clock(GapCheck(p.name)) < p.checkAfter
  }

  /** When checking does not stop, no gap that is left is overdue. */
  lemma {:induction false} NoneOverdue(s: State, look: Look, wait: nat, i: nat)
    requires Forward(look) && wait > 0 && GapsFrom(s, look, wait, i).stop.None?
    requires forall k :: 0 <= k < i && k < |s.pending| ==> look.clock(GapCheck(s.pending[k].name)) < s.pending[k].checkAfter
    ensures NotOverdue(look, GapsFrom(s, look, wait, i).state.pending)
    decreases |s.pending| - i
  {
    if i < |s.pending| {
      NoneOverdue(OneGap(s, look, wait, i), look, wait, if Clears(s, look, i) then i else i + 1);
    }
  }

  function ProblemText(p: Problem): string {
    match p
    case Reversed => "gap_to is before gap_from"
    case Unanswered => "can't read the run's member boxes"
    case Unreadable => "can't read the run's member boxes (invalid reply or turn time)"
    case Missing(name) => name + " has no PASS record"
  }
}
