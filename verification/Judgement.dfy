/** The three-valued judgement of the comparator: reasons that contradict, reasons that leave a gap. */
module Judgement {
  import opened Records

  datatype Judgement = Judgement(contradictions: set<Reason>, gaps: set<Reason>)

  const CLEAR := Judgement({}, {})

  function Plus(a: Judgement, b: Judgement): Judgement {
    Judgement(a.contradictions + b.contradictions, a.gaps + b.gaps)
  }

  lemma {:induction false} PlusAssociates(a: Judgement, b: Judgement, c: Judgement)
    ensures Plus(Plus(a, b), c) == Plus(a, Plus(b, c))
  {
    assert (a.contradictions + b.contradictions) + c.contradictions == a.contradictions + (b.contradictions + c.contradictions);
    assert (a.gaps + b.gaps) + c.gaps == a.gaps + (b.gaps + c.gaps);
  }

  lemma {:induction false} PlusFour(v: Judgement, a: Judgement, b: Judgement, c: Judgement, d: Judgement)
    ensures Plus(Plus(Plus(Plus(v, a), b), c), d) == Plus(v, Plus(Plus(a, b), Plus(c, d)))
  {
    PlusAssociates(Plus(v, a), b, Plus(c, d));
    PlusAssociates(Plus(Plus(v, a), b), c, d);
    PlusAssociates(v, a, Plus(b, Plus(c, d)));
    PlusAssociates(a, b, Plus(c, d));
  }

  function Contradicts(condition: bool, reason: Reason): Judgement {
    Judgement(if condition then {reason} else {}, {})
  }

  function Lacks(condition: bool, reason: Reason): Judgement {
    Judgement({}, if condition then {reason} else {})
  }

  /** Everything the elements of `s` are judged with. */
  ghost function Over<T(!new)>(s: set<T>, judge: T -> Judgement): Judgement {
    Judgement(set x, r | x in s && r in judge(x).contradictions :: r, set x, r | x in s && r in judge(x).gaps :: r)
  }

  ghost function Elements<T>(s: seq<T>): set<T> {
    set x | x in s
  }

  lemma {:induction false} OverStep<T(!new)>(s: seq<T>, i: nat, judge: T -> Judgement)
    requires i < |s|
    ensures Over(Elements(s[..i + 1]), judge) == Plus(Over(Elements(s[..i]), judge), judge(s[i]))
  {
    assert Elements(s[..i + 1]) == Elements(s[..i]) + {s[i]};
    var a, b := Over(Elements(s[..i + 1]), judge), Plus(Over(Elements(s[..i]), judge), judge(s[i]));
    assert a.contradictions == b.contradictions && a.gaps == b.gaps;
  }

  lemma {:induction false} OverNothing<T(!new)>(judge: T -> Judgement)
    ensures Over({}, judge) == CLEAR
  {
  }

  lemma {:induction false} OverClear<T(!new)>(s: set<T>, judge: T -> Judgement)
    ensures Over(s, judge) == CLEAR <==> forall x :: x in s ==> judge(x) == CLEAR
  {
    var j := Over(s, judge);
    if j == CLEAR {
      forall x | x in s ensures judge(x) == CLEAR {
        forall r ensures r !in judge(x).contradictions && r !in judge(x).gaps {
          assert r in judge(x).contradictions ==> r in j.contradictions;
          assert r in judge(x).gaps ==> r in j.gaps;
        }
      }
    }
  }

  /** `more` is what a judgement becomes when facts are added: gaps may close, and may close as contradictions. */
  ghost predicate Settles(less: Judgement, more: Judgement) {
    && more.gaps <= less.gaps
    && less.contradictions <= more.contradictions <= less.contradictions + less.gaps
  }

  lemma {:induction false} PlusSettles(a: Judgement, a': Judgement, b: Judgement, b': Judgement)
    requires Settles(a, a') && Settles(b, b')
    ensures Settles(Plus(a, b), Plus(a', b'))
  {
  }

  lemma {:induction false} OverSettles<T(!new)>(s: set<T>, judge: T -> Judgement, judge': T -> Judgement)
    requires forall x :: x in s ==> Settles(judge(x), judge'(x))
    ensures Settles(Over(s, judge), Over(s, judge'))
  {
    var a, b := Over(s, judge), Over(s, judge');
    forall r | r in b.gaps ensures r in a.gaps {
      var x :| x in s && r in judge'(x).gaps;
      assert r in judge(x).gaps;
    }
    forall r | r in a.contradictions ensures r in b.contradictions {
      var x :| x in s && r in judge(x).contradictions;
      assert r in judge'(x).contradictions;
    }
    forall r | r in b.contradictions ensures r in a.contradictions + a.gaps {
      var x :| x in s && r in judge'(x).contradictions;
      assert r in judge(x).contradictions || r in judge(x).gaps;
    }
  }
}
