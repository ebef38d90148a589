/** The polled reader of scripts/pi_watch_stop.py. What a poll sees is a parameter; the reader's fields are updated in place. */
module WatchStop {
  import opened Records
  import opened Text
  import opened Sorting
  import opened WatchRecords
  import opened WatchState
  import opened WatchPolls

  class Reader {
    const since: int
    const reread: nat
    const watchGrace: nat
    const continuityWait: nat
    const watchUnit: string
    const records: string
    var done: set<string>
    var againAt: map<string, int>
    var passBoxes: set<string>
    var continuities: seq<Pending>
    var unitDownSince: Option<int>
    ghost var timesRead: map<string, nat>
    ghost var finished: map<string, Outcome>
    ghost var held: map<string, Held>
    ghost var cleared: map<string, Evidence>
    ghost var sightings: seq<Sighting>

    /** The reader's fields and history as one value. */
    ghost function Now(): State
      reads this
    {
      State(done, againAt, passBoxes, continuities, timesRead, finished, held, cleared)
    }

    ghost predicate Valid()
      reads this
    {
      Sound(Now()) && unitDownSince == DownSince(sightings)
    }

    constructor (records: string, since: int, watchUnit: string, watchGrace: nat, reread: nat, continuityWait: nat)
      ensures Valid() && Now() == BEGINNING && FailClosed(Now()) && sightings == []
      ensures this.since == since && this.reread == reread && this.watchGrace == watchGrace && this.continuityWait == continuityWait
    {
      this.records, this.since, this.watchUnit := records, since, watchUnit;
      this.watchGrace, this.reread, this.continuityWait := watchGrace, reread, continuityWait;
      done, againAt, passBoxes, continuities, unitDownSince := {}, map[], {}, [], None;
      timesRead, finished, held, cleared, sightings := map[], map[], map[], map[], [];
    }

    /** The fields after a read judged `o`. */
    method Apply(name: string, o: Outcome, ghost h: Held, retryAt: int)
      modifies `done, `againAt, `passBoxes, `continuities, `timesRead, `finished, `held
      ensures Now() == AfterRead(old(Now()), name, o, h, retryAt)
    {
      ghost var after := AfterRead(Now(), name, o, h, retryAt);
      if o.Deferred? {
        againAt := againAt[name := retryAt];
      } else {
        done, againAt := done + {name}, againAt - {name};
        if o.Passed? && o.kind == BOX { passBoxes := passBoxes + {o.subject}; }
        if o.Gap? { continuities := continuities + [Pending(name, o.from, o.to, 0, false)]; }
      }
      timesRead, finished, held := after.timesRead, after.finished, after.held;
    }

    /** `_read` */
    method Read(name: string, look: Look) returns (item: Option<Item>)
      modifies `done, `againAt, `passBoxes, `continuities, `timesRead, `finished, `held
      ensures Now() == AfterRead(old(Now()), name, OutcomeIn(old(Now()), look, name, since), HeldIn(old(Now()), look, name, since), look.clock(Retry(name)) + reread)
      ensures item == ItemOf(name, OutcomeIn(old(Now()), look, name, since))
    {
      var o := Judged(look.content(name), name, name in againAt, since, look.wall);
      Apply(name, o, HeldIn(Now(), look, name, since), look.clock(Retry(name)) + reread);
      item := ItemOf(name, o);
    }

    method ReadNext(look: Look, name: string, found: seq<Item>) returns (found': seq<Item>)
      modifies `done, `againAt, `passBoxes, `continuities, `timesRead, `finished, `held
      ensures Now() == NextState(old(Now()), look, since, reread, name)
      ensures found' == NextFound(old(Now()), look, since, name, found)
    {
      found' := found;
      if name !in done && (name in againAt ==> againAt[name] <= look.clock(Scan)) {
        var item := Read(name, look);
        if item.Some? { found' := found + [item.value]; }
      }
    }

    /** The whole batch is read, in name order, before anything is decided. */
    method ReadBatch(look: Look, names: seq<string>) returns (found: seq<Item>)
      modifies `done, `againAt, `passBoxes, `continuities, `timesRead, `finished, `held
      ensures Now() == StateAfter(old(Now()), look, since, reread, names)
      ensures found == FoundBy(old(Now()), look, since, reread, names)
    {
      found := [];
      for i := 0 to |names|
        invariant Now() == StateAfter(old(Now()), look, since, reread, names[..i])
        invariant found == FoundBy(old(Now()), look, since, reread, names[..i])
      {
        assert names[..i + 1][..i] == names[..i];
        found := ReadNext(look, names[i], found);
      }
      assert names[..|names|] == names;
    }

    /** `_poll_records`: the earliest of the batch's findings; none only if nothing that was read calls for a stop. */
    method PollRecords(look: Look) returns (finding: Option<Finding>)
      requires Sound(Now())
      modifies `done, `againAt, `passBoxes, `continuities, `timesRead, `finished, `held
      ensures Sound(Now()) && old(passBoxes) <= passBoxes && old(done) <= done
      ensures finding.None? && old(FailClosed(Now())) ==> FailClosed(Now())
      ensures finding.None? ==> look.entries.Some? && AllSeen(look.entries.value, Now())
      ensures Now() == AfterRecords(old(Now()), look, since, reread)
      ensures look.entries.None? ==> finding == Some(UnreadableFolder(records))
      ensures look.entries.Some? ==> (finding.Some? <==> AnyBad(finished, done - old(done)))
      ensures look.entries.Some? && finding.Some? ==> IsEarliest(finding.value, finished, done - old(done))
    {
      if look.entries.None? {
        return Some(UnreadableFolder(records));
      }
      var names := Sort(RecordNames(look.entries.value), LexLe);
      BatchSound(Now(), look, since, reread, names);
      SortedSeen(look.entries.value, StateAfter(Now(), look, since, reread, names));
      var found := ReadBatch(look, names);
      if found == [] { return None; }
      var first := Earliest(found);
      return Some(first.finding);
    }

    /** `_poll_continuities` */
    method PollContinuities(look: Look) returns (finding: Option<Finding>)
      modifies `continuities, `cleared
      ensures Now() == GapsFrom(old(Now()), look, continuityWait, 0).state
      ensures var stop := GapsFrom(old(Now()), look, continuityWait, 0).stop;
              finding.Some? <==> stop.Some?
      ensures finding.Some? ==> AboutGap(finding.value, GapsFrom(old(Now()), look, continuityWait, 0).stop.value)
    {
      var i := 0;
      while i < |continuities|
        invariant 0 <= i <= |continuities|
        invariant GapsFrom(old(Now()), look, continuityWait, 0) == GapsFrom(Now(), look, continuityWait, i)
        decreases |continuities| - i
      {
        var gap := continuities[i];
        if look.clock(GapCheck(gap.name)) < gap.checkAfter {
          i := i + 1;
        } else {
          var problem := ContinuityProblem(gap.from, gap.to, look.reply(gap.name), passBoxes);
          if problem.None? {
            cleared := cleared[gap.name := Evidence(look.reply(gap.name), passBoxes)];
            continuities := continuities[..i] + continuities[i + 1..];
          } else if !gap.checkedOnce {
            continuities := continuities[i := gap.(checkAfter := look.clock(GapAgain(gap.name)) + continuityWait, checkedOnce := true)];
            i := i + 1;
          } else {
            return Some(Finding(COULD_NOT_CHECK, WATCH, CONTINUITY, ProblemText(problem.value), gap.name));
          }
        }
      }
      return None;
    }

    /** `_poll_unit`: a finding exactly when the unit has been seen down for longer than the grace. */
    method PollUnit(look: Look) returns (finding: Option<Finding>)
      requires unitDownSince == DownSince(sightings)
      modifies `unitDownSince, `sightings
      ensures unitDownSince == DownSince(sightings)
      ensures sightings == old(sightings) + [Sighting(look.clock(UnitCheck), look.unitActive)]
      ensures finding.Some? <==> DownSince(sightings).Some? && look.clock(UnitCheck) - DownSince(sightings).value > watchGrace
      ensures finding.Some? <==> UnitDown(old(sightings), look, watchGrace)
      ensures finding.Some? ==> AboutUnit(finding.value, watchUnit)
    {
      sightings := sightings + [Sighting(look.clock(UnitCheck), look.unitActive)];
      assert sightings[..|sightings| - 1] == old(sightings);
      if look.unitActive {
        unitDownSince := None;
        return None;
      }
      var now := look.clock(UnitCheck);
      if unitDownSince.None? { unitDownSince := Some(now); }
      if now - unitDownSince.value > watchGrace {
        return Some(Finding(COULD_NOT_CHECK, WATCH, watchUnit, "watch unit down for over the grace", watchUnit));
      }
      return None;
    }

    /** The gaps and then the unit. */
    method PollWaiting(look: Look) returns (finding: Option<Finding>)
      requires Valid()
      modifies `continuities, `cleared, `unitDownSince, `sightings
      ensures Valid()
      ensures Waited(finding, old(Now()), look, old(sightings), watchGrace, watchUnit)
      ensures finding.None? && Forward(look) && continuityWait > 0 ==> NotOverdue(look, continuities)
      ensures finding.None? ==> DownSince(sightings).None? || look.clock(UnitCheck) - DownSince(sightings).value <= watchGrace
    {
      ghost var before := Now();
      GapsKeepSound(before, look, continuityWait, 0);
      GapsStop(before, look, continuityWait, 0);
      StopIsFirst(before, look, continuityWait, 0);
      finding := PollContinuities(look);
      if finding.Some? { return; }
      if Forward(look) && continuityWait > 0 { NoneOverdue(before, look, continuityWait, 0); }
      finding := PollUnit(look);
    }

    /** `poll`: records first, then pending gaps, then the watch unit. While it returns none, everything read was a PASS,
        older than `since`, or a continuity gap that is still waited for or was justified. */
    method Poll(look: Look) returns (finding: Option<Finding>)
      requires Valid()
      modifies this
      ensures Valid() && old(passBoxes) <= passBoxes && old(done) <= done
      ensures var mid := AfterRecords(old(Now()), look, since, reread);
              if look.entries.None? then finding == Some(UnreadableFolder(records))
              else if AnyBad(mid.finished, mid.done - old(done)) then
                finding.Some? && IsEarliest(finding.value, mid.finished, mid.done - old(done))
              else Waited(finding, mid, look, old(sightings), watchGrace, watchUnit)
      ensures finding.None? && old(FailClosed(Now())) ==> FailClosed(Now())
      ensures finding.None? ==> look.entries.Some? && AllSeen(look.entries.value, Now())
      ensures finding.None? && Forward(look) && continuityWait > 0 ==> NotOverdue(look, continuities)
      ensures finding.None? ==> DownSince(sightings).None? || look.clock(UnitCheck) - DownSince(sightings).value <= watchGrace
      ensures old(FailClosed(Now())) && !FailClosed(Now()) ==> finding.Some? && IsEarliest(finding.value, finished, done - old(done))
    {
      finding := PollRecords(look);
      if finding.Some? { return; }
      ghost var before := Now();
      finding := PollWaiting(look);
      assert FailClosed(before) ==> FailClosed(Now());
      assert look.entries.Some? && (AllSeen(look.entries.value, before) ==> AllSeen(look.entries.value, Now()));
    }
  }

  /** The reader's main loop over a run of polls: it stops at the first finding, and until then stays fail-closed. */
  method Watch(reader: Reader, looks: seq<Look>) returns (finding: Option<Finding>)
    requires reader.Valid() && FailClosed(reader.Now())
    modifies reader
    ensures reader.Valid() && old(reader.passBoxes) <= reader.passBoxes && old(reader.done) <= reader.done
    ensures finding.None? ==> FailClosed(reader.Now())
  {
    for i := 0 to |looks|
      invariant reader.Valid() && FailClosed(reader.Now())
      invariant old(reader.passBoxes) <= reader.passBoxes && old(reader.done) <= reader.done
    {
      finding := reader.Poll(looks[i]);
      if finding.Some? { return; }
    }
    return None;
  }
}
