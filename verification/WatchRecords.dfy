/** What the watch reader of scripts/pi_watch_stop.py makes of one record and of one gap. */
module WatchRecords {
  import opened Records
  import opened Text

  const PASS := "PASS"
  const COULD_NOT_CHECK := "COULD NOT CHECK"
  const BOX := "box"
  const WATCH := "watch"
  const CONTINUITY := "continuity"
  const RECORD := "record"

  datatype Finding = Finding(verdict: string, kind: string, subject: string, reason: string, source: string)

  /** A file of the folder as one read finds it; `modified` is its time stamp, if that can be had. */
  datatype Content =
    | Unparsed(problem: string, modified: Option<int>)
    | Parsed(verdict: string, kind: string, subject: string, reason: string, checkedAt: Option<int>,
             gapFrom: Option<int>, gapTo: Option<int>, modified: Option<int>)

  datatype Outcome =
    | Deferred
    | Older
    | Passed(kind: string, subject: string)
    | Gap(from: int, to: int)
    | Bad(when: int, finding: Finding)

  function Or(a: Option<int>, b: int): int {
    if a.Some? then a.value else b
  }

  /** When a record counts as made: its own time, else the file's, else the wall clock. */
  function Dated(c: Content, wall: int): int {
    if c.Parsed? then Or(c.checkedAt, Or(c.modified, wall)) else Or(c.modified, wall)
  }

  function IsContinuity(c: Content): bool
    requires c.Parsed?
  {
    c.kind == WATCH && c.subject == CONTINUITY && c.verdict == COULD_NOT_CHECK
  }

  /** `_read`, as a judgement: `again` when this is the second read of a name that did not parse. */
  function Judged(c: Content, name: string, again: bool, since: int, wall: int): Outcome {
    var when := Dated(c, wall);
    match c
    case Unparsed(problem, _) =>
      if !again then Deferred
      else if when < since then Older
      else Bad(when, Finding(COULD_NOT_CHECK, RECORD, name, problem, name))
    case Parsed(verdict, kind, subject, reason, _, gapFrom, gapTo, _) =>
      if when < since then Older
      else if verdict == PASS then Passed(kind, subject)
      else if IsContinuity(c) then Gap(Or(gapFrom, since), Or(gapTo, when))
      else Bad(when, Finding(verdict, kind, subject, reason, name))
  }

  /** A record is passed over only if it is a PASS, is older than `since`, is a continuity gap, or may yet parse. */
  lemma {:induction false} NothingSlipsThrough(c: Content, name: string, again: bool, since: int, wall: int)
    ensures var o := Judged(c, name, again, since, wall);
            o.Bad? <==> Dated(c, wall) >= since && (if c.Unparsed? then again else c.verdict != PASS && !IsContinuity(c))
    ensures Judged(c, name, again, since, wall).Deferred? <==> c.Unparsed? && !again
    ensures Judged(c, name, again, since, wall).Passed? ==> c.Parsed? && c.verdict == PASS && Dated(c, wall) >= since
  {
    assert PASS != COULD_NOT_CHECK by { assert |PASS| == 4 && |COULD_NOT_CHECK| == 15; }
  }

  // -- what an outcome says of the file

  /** One read: what the file held, the wall clock then, the reader's start, and whether the name had failed to parse before. */
  datatype Held = Held(content: Content, wall: int, since: int, again: bool)

  /** When the record counts as made. */
  ghost predicate MadeAt(h: Held, date: int) {
    match h.content
    case Unparsed(_, modified) => date == (if modified.Some? then modified.value else h.wall)
    case Parsed(_, _, _, _, checkedAt, _, _, modified) =>
      date == (if checkedAt.Some? then checkedAt.value else if modified.Some? then modified.value else h.wall)
  }

  ghost predicate ContinuityHeld(h: Held) {
    h.content.Parsed? && h.content.kind == "watch" && h.content.subject == "continuity" && h.content.verdict == "COULD NOT CHECK"
  }

  /** What a name's file must hold for the name to be finished with the outcome. */
  ghost predicate Means(h: Held, name: string, o: Outcome, date: int) {
    && MadeAt(h, date) && (h.content.Unparsed? ==> h.again)
    && match o {
         case Deferred => false
         case Older => date < h.since
         case Passed(kind, subject) =>
           date >= h.since && h.content.Parsed? && h.content.verdict == "PASS" && kind == h.content.kind && subject == h.content.subject
         case Gap(from, to) =>
           && date >= h.since && ContinuityHeld(h)
           && from == (if h.content.gapFrom.Some? then h.content.gapFrom.value else h.since)
           && to == (if h.content.gapTo.Some? then h.content.gapTo.value else date)
         case Bad(when, f) =>
           && date >= h.since && when == date
           && (if h.content.Unparsed? then f == Finding("COULD NOT CHECK", "record", name, h.content.problem, name)
               else h.content.verdict != "PASS" && !ContinuityHeld(h)
                    && f == Finding(h.content.verdict, h.content.kind, h.content.subject, h.content.reason, name))
       }
  }

  /** A judgement that finishes a name says exactly what the file held. */
  lemma {:induction false} JudgedMeans(h: Held, name: string)
    ensures var o := Judged(h.content, name, h.again, h.since, h.wall);
            !o.Deferred? ==> Means(h, name, o, Dated(h.content, h.wall))
    ensures Judged(h.content, name, h.again, h.since, h.wall).Deferred? <==> h.content.Unparsed? && !h.again
  {
    assert |"PASS"| == 4 && |"COULD NOT CHECK"| == 15;
  }

  // -- gaps

  /** One box of the run: when its turn ran, and whether a final receipt says no container was created. */
  datatype Box = Box(name: string, started: int, ended: Option<int>, notCreated: bool)
  datatype Reply = NoAnswer | Invalid | Boxes(boxes: seq<Box>)
  datatype Problem = Reversed | Unanswered | Unreadable | Missing(name: string)

  predicate Overlaps(b: Box, from: int, to: int) {
    !(b.started > to || (b.ended.Some? && b.ended.value < from))
  }

  /** Only an ended box's receipt proves that nothing ran. */
  predicate Excused(b: Box) {
    b.notCreated && b.ended.Some?
  }

  predicate NeedsPass(b: Box, from: int, to: int, passes: set<string>) {
    Overlaps(b, from, to) && !Excused(b) && b.name !in passes
  }

  /** The ledger answered, and every box of the gap not excused by its receipt has a PASS. */
  predicate Justified(from: int, to: int, reply: Reply, passes: set<string>) {
    from <= to && reply.Boxes? && forall b :: b in reply.boxes ==> !NeedsPass(b, from, to, passes)
  }

  ghost predicate LeastMissing(from: int, to: int, boxes: seq<Box>, passes: set<string>, name: string) {
    && (exists b :: b in boxes && NeedsPass(b, from, to, passes) && b.name == name)
    && (forall d :: d in boxes && NeedsPass(d, from, to, passes) ==> LexLe(name, d.name))
  }

  /** `_continuity_problem`: none exactly when the gap is justified; otherwise the least box without a PASS is named. */
  method ContinuityProblem(from: int, to: int, reply: Reply, passes: set<string>) returns (problem: Option<Problem>)
    ensures problem.None? <==> Justified(from, to, reply, passes)
    ensures problem.Some? && problem.value.Missing? ==> reply.Boxes? && LeastMissing(from, to, reply.boxes, passes, problem.value.name)
  {
    if to < from { return Some(Reversed); }
    match reply {
      case NoAnswer => return Some(Unanswered);
      case Invalid => return Some(Unreadable);
      case Boxes(boxes) =>
        var least: Option<Box> := None;
        for i := 0 to |boxes|
          invariant least.None? ==> forall b :: b in boxes[..i] ==> !NeedsPass(b, from, to, passes)
          invariant least.Some? ==> least.value in boxes[..i] && NeedsPass(least.value, from, to, passes)
                                    && forall d :: d in boxes[..i] && NeedsPass(d, from, to, passes) ==> LexLe(least.value.name, d.name)
        {
          assert boxes[..i + 1] == boxes[..i] + [boxes[i]];
          if NeedsPass(boxes[i], from, to, passes) {
            if least.None? || !LexLe(least.value.name, boxes[i].name) {
              if least.Some? { LesserStill(least.value.name, boxes[i].name, boxes[..i], from, to, passes); }
              LexLeTotal(boxes[i].name, boxes[i].name);
              least := Some(boxes[i]);
            }
          }
        }
        assert boxes[..|boxes|] == boxes;
        if least.None? { return None; }
        return Some(Missing(least.value.name));
    }
  }

  lemma {:induction false} LesserStill(least: string, name: string, boxes: seq<Box>, from: int, to: int, passes: set<string>)
    requires !LexLe(least, name)
    requires forall d :: d in boxes && NeedsPass(d, from, to, passes) ==> LexLe(least, d.name)
    ensures forall d :: d in boxes && NeedsPass(d, from, to, passes) ==> LexLe(name, d.name)
  {
    LexLeTotal(least, name);
    forall d | d in boxes && NeedsPass(d, from, to, passes) ensures LexLe(name, d.name) { LexLeTransitive(name, least, d.name); }
  }

  /** A box of the run that the gap's justification needs a PASS for: its turn overlaps the gap, and no final receipt says that its
      container was never created. */
  ghost predicate Concerned(b: Box, from: int, to: int) {
    && b.started <= to && (b.ended.None? || from <= b.ended.value)
    && !(b.ended.Some? && b.notCreated)
  }

  lemma {:induction false} JustifiedMeans(from: int, to: int, reply: Reply, passes: set<string>)
    ensures Justified(from, to, reply, passes) <==>
            from <= to && reply.Boxes? && forall b :: b in reply.boxes && Concerned(b, from, to) ==> b.name in passes
    ensures forall b :: NeedsPass(b, from, to, passes) <==> Concerned(b, from, to) && b.name !in passes
  {
    forall b ensures NeedsPass(b, from, to, passes) <==> Concerned(b, from, to) && b.name !in passes {}
  }
}
