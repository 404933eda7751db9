/**
 * What the parts-list generator promises: which inputs it rejects and with which error,
 * that every component's catalog label appears exactly once, the fixed order of each
 * line's items, when the size adapter appears, what is recorded per index, and where the
 * unreferenced components go.
 */
module GeneratorProperties {
  import opened Wrappers
  import opened Generator

  /** Every index some line in `ls` starts or ends at. */
  function Referenced(ls: seq<Line>): set<nat>
  {
    if ls == [] then {} else Referenced(ls[..|ls| - 1]) + {ls[|ls| - 1].start, ls[|ls| - 1].end}
  }

  /** The component indices of the catalog labels in `out`, in order. */
  function LabelIndices(out: seq<Entry>): seq<nat>
  {
    if out == [] then []
    else (if out[0].Label? then [out[0].index] else []) + LabelIndices(out[1..])
  }

  /** The texts that are catalog labels. */
  predicate IsCatalogLabel(s: string)
  {
    s in {"Pipe Item", "Valve Item", "Pump Item", "Flange Item", "Filter Item", "Analyzer Item"}
  }

  /** How many strings of `items` are catalog labels. */
  function CatalogLabelCount(items: seq<string>): nat
  {
    if items == [] then 0
    else (if IsCatalogLabel(items[0]) then 1 else 0) + CatalogLabelCount(items[1..])
  }

  // ---------------------------------------------------------------------------------
  // Errors

  /** A line whose kinds the transition table allows never starts and ends at one index. */
  lemma NoSelfLoops(c: seq<Component>, l: Line)
    requires LineOk(c, l)
    ensures l.start != l.end
  {
    assert c[l.end] != c[l.start];
  }

  /** Every line of `ls` names two components and an allowed transition. */
  predicate AllLinesOk(c: seq<Component>, ls: seq<Line>)
  {
    forall k :: 0 <= k < |ls| ==> LineOk(c, ls[k])
  }

  lemma AllLinesOkSnoc(c: seq<Component>, ls: seq<Line>)
    requires ls != []
    ensures AllLinesOk(c, ls) <==> AllLinesOk(c, ls[..|ls| - 1]) && LineOk(c, ls[|ls| - 1])
  {
    var init := ls[..|ls| - 1];
    if AllLinesOk(c, ls) {
      forall k | 0 <= k < |init| ensures LineOk(c, init[k]) {
        assert init[k] == ls[k];
      }
    }
    if AllLinesOk(c, init) && LineOk(c, ls[|ls| - 1]) {
      forall k | 0 <= k < |ls| ensures LineOk(c, ls[k]) {
        if k < |init| {
          assert init[k] == ls[k];
        }
      }
    }
  }

  /** The pass succeeds exactly when every line names two components and an allowed transition. */
  lemma {:induction false} SucceedsIffAllLinesOk(c: seq<Component>, ls: seq<Line>)
    ensures Walk(c, ls).Ok? <==> AllLinesOk(c, ls)
    ensures Handleliste(c, ls).Ok? <==> AllLinesOk(c, ls)
  {
    if ls != [] {
      SucceedsIffAllLinesOk(c, ls[..|ls| - 1]);
      AllLinesOkSnoc(c, ls);
    }
  }

  /** A rejected pass reports the first bad line: a bad index first, else the bad transition. */
  lemma FailsAtFirstBadLine(c: seq<Component>, ls: seq<Line>, k: nat)
    requires k < |ls|
    requires forall j :: 0 <= j < k ==> LineOk(c, ls[j])
    requires !LineOk(c, ls[k])
    ensures Handleliste(c, ls) == Err(LineError(c, ls[k]))
    ensures !InRange(c, ls[k]) ==> Handleliste(c, ls) == Err(InvalidIndex)
    ensures InRange(c, ls[k]) ==> Handleliste(c, ls) == Err(InvalidTransition(c[ls[k].start], c[ls[k].end]))
  {
    var pre := ls[..k];
    assert forall j :: 0 <= j < |pre| ==> pre[j] == ls[j];
    SucceedsIffAllLinesOk(c, pre);
    var pre' := ls[..k + 1];
    assert pre'[..|pre'| - 1] == pre;
    assert Walk(c, pre') == Err(LineError(c, ls[k]));
    ErrorIsFinal(c, ls, k + 1);
  }

  /** On success every line goes between two components along an allowed transition. */
  lemma AcceptedLinesAreAllowed(c: seq<Component>, ls: seq<Line>, k: nat)
    requires Handleliste(c, ls).Ok? && k < |ls|
    ensures ls[k].start < |c| && ls[k].end < |c|
    ensures c[ls[k].end] in Transitions(c[ls[k].start])
  {
    SucceedsIffAllLinesOk(c, ls);
  }

  // ---------------------------------------------------------------------------------
  // The items of one line

  /** Where an item of a line's block sits in the block's fixed order. */
  function Rank(e: Entry, l: Line): nat
  {
    match e
    case Label(i, _) => if i == l.start then 0 else 5
    case SizeAdapter => 1
    case Fitting(_) => 2
    case BulkheadItem => 3
    case TeeItem => 4
  }

  predicate StrictlyRanked(s: seq<Entry>, l: Line)
  {
    forall i, j :: 0 <= i < j < |s| ==> Rank(s[i], l) < Rank(s[j], l)
  }

  /** Every item of `s` ranks below `k`. */
  predicate RanksBelow(s: seq<Entry>, l: Line, k: nat)
  {
    forall i :: 0 <= i < |s| ==> Rank(s[i], l) < k
  }

  /** `t` holds at most one item, and that item has rank `k`. */
  predicate AtMostOneOfRank(t: seq<Entry>, l: Line, k: nat)
  {
    |t| <= 1 && forall i :: 0 <= i < |t| ==> Rank(t[i], l) == k
  }

  lemma RankedAppend(s: seq<Entry>, t: seq<Entry>, l: Line, k: nat)
    requires StrictlyRanked(s, l) && RanksBelow(s, l, k) && AtMostOneOfRank(t, l, k)
    ensures StrictlyRanked(s + t, l) && RanksBelow(s + t, l, k + 1)
  {
    var u := s + t;
    forall i | 0 <= i < |u| ensures Rank(u[i], l) < k + 1 {
      if i < |s| {
        assert u[i] == s[i];
      } else {
        assert u[i] == t[i - |s|];
      }
    }
    forall i, j | 0 <= i < j < |u| ensures Rank(u[i], l) < Rank(u[j], l) {
      assert u[i] == s[i];
      if j < |s| {
        assert u[j] == s[j];
      } else {
        assert u[j] == t[j - |s|];
      }
    }
  }

  /** Six pieces of ranks 0 to 5, each of at most one item, concatenate in strict rank order. */
  lemma SixPiecesRanked(p0: seq<Entry>, p1: seq<Entry>, p2: seq<Entry>, p3: seq<Entry>,
                        p4: seq<Entry>, p5: seq<Entry>, l: Line)
    requires AtMostOneOfRank(p0, l, 0) && AtMostOneOfRank(p1, l, 1) && AtMostOneOfRank(p2, l, 2)
    requires AtMostOneOfRank(p3, l, 3) && AtMostOneOfRank(p4, l, 4) && AtMostOneOfRank(p5, l, 5)
    ensures StrictlyRanked(p0 + p1 + p2 + p3 + p4 + p5, l)
  {
    assert [] + p0 == p0;
    RankedAppend([], p0, l, 0);
    RankedAppend(p0, p1, l, 1);
    RankedAppend(p0 + p1, p2, l, 2);
    RankedAppend(p0 + p1 + p2, p3, l, 3);
    RankedAppend(p0 + p1 + p2 + p3, p4, l, 4);
    RankedAppend(p0 + p1 + p2 + p3 + p4, p5, l, 5);
  }

  lemma BlockOfOrder(ch: Choices, l: Line, a: Component, b: Component)
    requires ch.endLabel ==> l.end != l.start
    ensures StrictlyRanked(BlockOf(ch, l, a, b), l)
  {
    var p2: seq<Entry> := match ch.fitting case Some(f) => [Fitting(f)] case None => [];
    assert AtMostOneOfRank(p2, l, 2);
    SixPiecesRanked(Opt(ch.startLabel, Label(l.start, a)), Opt(ch.adapter, SizeAdapter), p2,
                    Opt(ch.bulkhead, BulkheadItem), Opt(ch.tee, TeeItem),
                    Opt(ch.endLabel, Label(l.end, b)), l);
  }

  /** The block lists its items in the fixed order of `Rank`: start label, size adapter,
      fitting, bulkhead, tee, end label; so each appears at most once. */
  lemma BlockOrder(c: seq<Component>, p: Pass, l: Line)
    requires LineOk(c, l)
    ensures StrictlyRanked(Block(c, p, l), l)
  {
    BlockOfOrder(LineChoices(c, p, l), l, c[l.start], c[l.end]);
  }

  lemma BlockOfMembers(ch: Choices, l: Line, a: Component, b: Component)
    ensures forall e :: e in BlockOf(ch, l, a, b) <==>
              || (ch.startLabel && e == Label(l.start, a))
              || (ch.adapter && e == SizeAdapter)
              || (ch.fitting.Some? && e == Fitting(ch.fitting.value))
              || (ch.bulkhead && e == BulkheadItem)
              || (ch.tee && e == TeeItem)
              || (ch.endLabel && e == Label(l.end, b))
  {
  }

  /**
   * What the block of one line holds: the start label exactly when the start index is new,
   * the end label exactly when the end index is new, no other label, the size adapter
   * exactly when the start index was recorded with another size, the table's fitting for
   * the pair of kinds exactly when there is one, the bulkhead and the tee exactly when the
   * line has them.
   */
  lemma BlockMembers(c: seq<Component>, p: Pass, l: Line)
    requires LineOk(c, l)
    ensures Label(l.start, c[l.start]) in Block(c, p, l) <==> l.start !in p.seen
    ensures Label(l.end, c[l.end]) in Block(c, p, l) <==> l.end !in p.seen
    ensures forall e :: e in Block(c, p, l) && e.Label? ==>
              e == Label(l.start, c[l.start]) || e == Label(l.end, c[l.end])
    ensures SizeAdapter in Block(c, p, l) <==> l.start in p.sizes && p.sizes[l.start] != l.size
    ensures forall f :: Fitting(f) in Block(c, p, l) <==> Fittings(c[l.start], c[l.end]) == Some(f)
    ensures BulkheadItem in Block(c, p, l) <==> l.bulkhead
    ensures TeeItem in Block(c, p, l) <==> l.tee
  {
    NoSelfLoops(c, l);
    BlockOfMembers(LineChoices(c, p, l), l, c[l.start], c[l.end]);
  }

  /** The size last recorded for the end index plays no part in a line's items. */
  lemma EndSizeNotConsulted(c: seq<Component>, p: Pass, l: Line, other: string)
    requires LineOk(c, l)
    ensures Block(c, Pass(p.out, p.seen, p.sizes[l.end := other]), l) == Block(c, p, l)
  {
    NoSelfLoops(c, l);
  }

  // ---------------------------------------------------------------------------------
  // Catalog labels

  lemma {:induction false} LabelIndicesAppend(a: seq<Entry>, b: seq<Entry>)
    ensures LabelIndices(a + b) == LabelIndices(a) + LabelIndices(b)
  {
    if a == [] {
      assert a + b == b;
    } else {
      var head := if a[0].Label? then [a[0].index] else [];
      assert (a + b)[0] == a[0] && (a + b)[1..] == a[1..] + b;
      LabelIndicesAppend(a[1..], b);
      calc {
        LabelIndices(a + b);
        head + LabelIndices(a[1..] + b);
        head + (LabelIndices(a[1..]) + LabelIndices(b));
        (head + LabelIndices(a[1..])) + LabelIndices(b);
        LabelIndices(a) + LabelIndices(b);
      }
    }
  }

  lemma LabelIndicesOpt(cond: bool, e: Entry)
    ensures LabelIndices(Opt(cond, e)) == if cond && e.Label? then [e.index] else []
  {
    if cond {
      assert [e][1..] == [];
    }
  }

  lemma LabelIndicesSix(p0: seq<Entry>, p1: seq<Entry>, p2: seq<Entry>, p3: seq<Entry>,
                        p4: seq<Entry>, p5: seq<Entry>)
    ensures LabelIndices(p0 + p1 + p2 + p3 + p4 + p5)
         == LabelIndices(p0) + LabelIndices(p1) + LabelIndices(p2) + LabelIndices(p3)
            + LabelIndices(p4) + LabelIndices(p5)
  {
    LabelIndicesAppend(p0, p1);
    LabelIndicesAppend(p0 + p1, p2);
    LabelIndicesAppend(p0 + p1 + p2, p3);
    LabelIndicesAppend(p0 + p1 + p2 + p3, p4);
    LabelIndicesAppend(p0 + p1 + p2 + p3 + p4, p5);
  }

  /** Six pieces of which only the first and the last may hold labels. */
  lemma LabelsAtEnds(p0: seq<Entry>, p1: seq<Entry>, p2: seq<Entry>, p3: seq<Entry>,
                     p4: seq<Entry>, p5: seq<Entry>)
    requires LabelIndices(p1) == [] && LabelIndices(p2) == [] && LabelIndices(p3) == []
    requires LabelIndices(p4) == []
    ensures LabelIndices(p0 + p1 + p2 + p3 + p4 + p5) == LabelIndices(p0) + LabelIndices(p5)
  {
    LabelIndicesSix(p0, p1, p2, p3, p4, p5);
    var i0 := LabelIndices(p0);
    assert i0 + [] + [] + [] + [] == i0;
  }

  lemma BlockOfLabelIndices(ch: Choices, l: Line, a: Component, b: Component)
    ensures LabelIndices(BlockOf(ch, l, a, b))
         == (if ch.startLabel then [l.start] else []) + (if ch.endLabel then [l.end] else [])
  {
    var q2: seq<Entry> := match ch.fitting case Some(f) => [Fitting(f)] case None => [];
    LabelIndicesOpt(ch.startLabel, Label(l.start, a));
    LabelIndicesOpt(ch.adapter, SizeAdapter);
    if ch.fitting.Some? {
      LabelIndicesOpt(true, Fitting(ch.fitting.value));
    }
    LabelIndicesOpt(ch.bulkhead, BulkheadItem);
    LabelIndicesOpt(ch.tee, TeeItem);
    LabelIndicesOpt(ch.endLabel, Label(l.end, b));
    LabelsAtEnds(Opt(ch.startLabel, Label(l.start, a)), Opt(ch.adapter, SizeAdapter), q2,
                 Opt(ch.bulkhead, BulkheadItem), Opt(ch.tee, TeeItem), Opt(ch.endLabel, Label(l.end, b)));
  }

  /** The labels of a line's block are those of its start and end indices not yet seen. */
  lemma BlockLabelIndices(c: seq<Component>, p: Pass, l: Line)
    requires LineOk(c, l)
    ensures LabelIndices(Block(c, p, l))
         == (if l.start !in p.seen then [l.start] else [])
            + (if l.end !in p.seen && l.end != l.start then [l.end] else [])
  {
    BlockOfLabelIndices(LineChoices(c, p, l), l, c[l.start], c[l.end]);
  }

  /** No fitting, adapter, bulkhead or tee text is a catalog label. */
  lemma PartNamesAreNotLabels(a: Component, b: Component)
    ensures !IsCatalogLabel(Adapter) && !IsCatalogLabel(Bulkhead) && !IsCatalogLabel(Tee)
    ensures Fittings(a, b).Some? ==> !IsCatalogLabel(Fittings(a, b).value)
  {
  }

  /** Every entry of a block is a catalog label exactly when it is a label entry, and each
      label is the one of its own component. */
  lemma BlockNamesClassified(c: seq<Component>, p: Pass, l: Line)
    requires LineOk(c, l)
    ensures forall e :: e in Block(c, p, l) ==> (IsCatalogLabel(Name(e)) <==> e.Label?)
    ensures forall e :: e in Block(c, p, l) && e.Label? ==> e.index < |c| && e.kind == c[e.index]
  {
    PartNamesAreNotLabels(c[l.start], c[l.end]);
    BlockOfMembers(LineChoices(c, p, l), l, c[l.start], c[l.end]);
  }

  /** What holds of the state after every accepted prefix of the lines. */
  ghost predicate WalkInvariant(c: seq<Component>, ls: seq<Line>, p: Pass)
  {
    && p.seen == Referenced(ls)
    && (forall i :: i in p.seen ==> i < |c|)
    && (forall x: nat :: multiset(LabelIndices(p.out))[x] == if x in p.seen then 1 else 0)
    && (forall e :: e in p.out ==> (IsCatalogLabel(Name(e)) <==> e.Label?))
    && (forall e :: e in p.out && e.Label? ==> e.index < |c| && e.kind == c[e.index])
  }

  /** After the line pass the seen indices are exactly those the lines reference, all in range. */
  lemma {:induction false} WalkSeen(c: seq<Component>, ls: seq<Line>)
    requires Walk(c, ls).Ok?
    ensures Walk(c, ls).value.seen == Referenced(ls)
    ensures forall i :: i in Walk(c, ls).value.seen ==> i < |c|
  {
    if ls != [] {
      WalkSeen(c, ls[..|ls| - 1]);
    }
  }

  /** The line pass emits the label of each seen index once and of no other index. */
  lemma {:induction false} WalkLabelsOnce(c: seq<Component>, ls: seq<Line>)
    requires Walk(c, ls).Ok?
    ensures forall x: nat :: multiset(LabelIndices(Walk(c, ls).value.out))[x]
                        == if x in Walk(c, ls).value.seen then 1 else 0
  {
    if ls != [] {
      var init := ls[..|ls| - 1];
      WalkLabelsOnce(c, init);
      StepLabelsOnce(c, Walk(c, init).value, ls[|ls| - 1]);
    }
  }

  /** An accepted line keeps "each seen index labelled exactly once, no other index labelled". */
  lemma StepLabelsOnce(c: seq<Component>, p: Pass, l: Line)
    requires LineOk(c, l)
    requires forall x: nat :: multiset(LabelIndices(p.out))[x] == if x in p.seen then 1 else 0
    ensures forall x: nat :: multiset(LabelIndices(Step(c, p, l).value.out))[x]
                        == if x in Step(c, p, l).value.seen then 1 else 0
  {
    var q := Step(c, p, l).value;
    var block := Block(c, p, l);
    assert q.out == p.out + block && q.seen == p.seen + {l.start, l.end};
    BlockLabelIndices(c, p, l);
    LabelIndicesAppend(p.out, block);
    assert multiset(LabelIndices(q.out)) == multiset(LabelIndices(p.out)) + multiset(LabelIndices(block));
    NewIndicesOnce(multiset(LabelIndices(p.out)), p.seen, l.start, l.end);
  }

  /** Adding the new ones of two indices to a count of "exactly the seen ones" counts the enlarged set. */
  lemma NewIndicesOnce(m: multiset<nat>, seen: set<nat>, s: nat, e: nat)
    requires forall x: nat :: m[x] == if x in seen then 1 else 0
    ensures forall x: nat :: (m + multiset((if s !in seen then [s] else [])
                                           + (if e !in seen && e != s then [e] else [])))[x]
                        == if x in seen + {s, e} then 1 else 0
  {
    var added := (if s !in seen then [s] else []) + (if e !in seen && e != s then [e] else []);
    forall x: nat ensures (m + multiset(added))[x] == if x in seen + {s, e} then 1 else 0 {
      if s !in seen && e !in seen && e != s {
        assert added == [s, e];
      } else if s !in seen {
        assert added == [s];
      } else if e !in seen && e != s {
        assert added == [e];
      } else {
        assert added == [];
      }
    }
  }

  /** Every entry the line pass emits is a catalog label exactly when it is a label entry, and
      each label names the kind of its own component. */
  lemma {:induction false} WalkEntriesClassified(c: seq<Component>, ls: seq<Line>)
    requires Walk(c, ls).Ok?
    ensures forall e :: e in Walk(c, ls).value.out ==> (IsCatalogLabel(Name(e)) <==> e.Label?)
    ensures forall e :: e in Walk(c, ls).value.out && e.Label? ==> e.index < |c| && e.kind == c[e.index]
  {
    if ls != [] {
      var init, l := ls[..|ls| - 1], ls[|ls| - 1];
      WalkEntriesClassified(c, init);
      var p := Walk(c, init).value;
      assert LineOk(c, l);
      assert Walk(c, ls).value.out == p.out + Block(c, p, l);
      BlockNamesClassified(c, p, l);
    }
  }

  /** The facts above, together, hold after every accepted sequence of lines. */
  lemma WalkKeepsInvariant(c: seq<Component>, ls: seq<Line>)
    requires Walk(c, ls).Ok?
    ensures WalkInvariant(c, ls, Walk(c, ls).value)
  {
    WalkSeen(c, ls);
    WalkLabelsOnce(c, ls);
    WalkEntriesClassified(c, ls);
  }

  /** Unreferenced entries are the labels, of their own kind, of unseen indices below `n`. */
  lemma {:induction false} UnreferencedLabels(c: seq<Component>, seen: set<nat>, n: nat)
    requires n <= |c|
    ensures forall e :: e in Unreferenced(c, seen, n) ==>
              e.Label? && e.index < n && e.index !in seen && e.kind == c[e.index]
  {
    if n > 0 {
      UnreferencedLabels(c, seen, n - 1);
      assert Unreferenced(c, seen, n)
          == Unreferenced(c, seen, n - 1) + Opt(n - 1 !in seen, Label(n - 1, c[n - 1]));
    }
  }

  /** Unreferenced labels come in strictly increasing index order. */
  lemma {:induction false} UnreferencedIncreasing(c: seq<Component>, seen: set<nat>, n: nat)
    requires n <= |c|
    ensures forall i, j :: 0 <= i < j < |Unreferenced(c, seen, n)| ==>
              && Unreferenced(c, seen, n)[i].Label? && Unreferenced(c, seen, n)[j].Label?
              && Unreferenced(c, seen, n)[i].index < Unreferenced(c, seen, n)[j].index
  {
    if n > 0 {
      UnreferencedIncreasing(c, seen, n - 1);
      UnreferencedLabels(c, seen, n - 1);
      var u := Unreferenced(c, seen, n - 1);
      var v := Unreferenced(c, seen, n);
      assert v == u + Opt(n - 1 !in seen, Label(n - 1, c[n - 1]));
      forall i, j | 0 <= i < j < |v| ensures v[i].Label? && v[j].Label? && v[i].index < v[j].index {
        assert v[i] == u[i];
        if j < |u| {
          assert v[j] == u[j];
        } else {
          assert u[i] in u;
        }
      }
    } else {
      assert Unreferenced(c, seen, 0) == [];
    }
  }

  /** The indices below `n` that `seen` lacks, in increasing order. */
  function UnseenBelow(seen: set<nat>, n: nat): seq<nat>
  {
    if n == 0 then [] else UnseenBelow(seen, n - 1) + Opt(n - 1 !in seen, n - 1)
  }

  lemma {:induction false} UnreferencedIndices(c: seq<Component>, seen: set<nat>, n: nat)
    requires n <= |c|
    ensures LabelIndices(Unreferenced(c, seen, n)) == UnseenBelow(seen, n)
  {
    if n > 0 {
      UnreferencedIndices(c, seen, n - 1);
      var u := Unreferenced(c, seen, n - 1);
      var extra := Opt(n - 1 !in seen, Label(n - 1, c[n - 1]));
      assert Unreferenced(c, seen, n) == u + extra;
      LabelIndicesAppend(u, extra);
      LabelIndicesOpt(n - 1 !in seen, Label(n - 1, c[n - 1]));
      assert LabelIndices(extra) == Opt(n - 1 !in seen, n - 1);
      assert UnseenBelow(seen, n) == UnseenBelow(seen, n - 1) + Opt(n - 1 !in seen, n - 1);
    }
  }

  /** The unseen indices below `n` are listed in increasing order, each below `n`. */
  lemma {:induction false} UnseenBelowIncreasing(seen: set<nat>, n: nat)
    ensures forall i :: 0 <= i < |UnseenBelow(seen, n)| ==> UnseenBelow(seen, n)[i] < n
    ensures forall i, j :: 0 <= i < j < |UnseenBelow(seen, n)| ==>
              UnseenBelow(seen, n)[i] < UnseenBelow(seen, n)[j]
  {
    if n > 0 {
      UnseenBelowIncreasing(seen, n - 1);
      var prev := UnseenBelow(seen, n - 1);
      var s := UnseenBelow(seen, n);
      assert s == prev + Opt(n - 1 !in seen, n - 1);
      forall i | 0 <= i < |s| ensures s[i] < n {
        if i < |prev| {
          assert s[i] == prev[i];
        }
      }
      forall i, j | 0 <= i < j < |s| ensures s[i] < s[j] {
        assert s[i] == prev[i];
        if j < |prev| {
          assert s[j] == prev[j];
        }
      }
    }
  }

  /** An index is listed exactly when it is below `n` and not seen. */
  lemma {:induction false} UnseenBelowMembers(seen: set<nat>, n: nat)
    ensures forall x: nat :: x in UnseenBelow(seen, n) <==> x < n && x !in seen
  {
    if n > 0 {
      UnseenBelowMembers(seen, n - 1);
      assert UnseenBelow(seen, n) == UnseenBelow(seen, n - 1) + Opt(n - 1 !in seen, n - 1);
    }
  }

  /** In a strictly increasing sequence every value occurs at most once. */
  lemma {:induction false} IncreasingCount(s: seq<nat>, x: nat)
    requires forall i, j :: 0 <= i < j < |s| ==> s[i] < s[j]
    ensures multiset(s)[x] == if x in s then 1 else 0
  {
    if s != [] {
      var init := s[..|s| - 1];
      IncreasingCount(init, x);
      assert s == init + [s[|s| - 1]];
      if x == s[|s| - 1] {
        forall i | 0 <= i < |init| ensures init[i] != x {
          assert init[i] == s[i];
        }
      }
      var before: multiset<nat> := multiset(init);
      var after: multiset<nat> := multiset(s);
      assert after == before + multiset{s[|s| - 1]};
    }
  }

  lemma UnseenBelowCount(seen: set<nat>, n: nat, x: nat)
    ensures multiset(UnseenBelow(seen, n))[x] == if x < n && x !in seen then 1 else 0
  {
    UnseenBelowIncreasing(seen, n);
    UnseenBelowMembers(seen, n);
    IncreasingCount(UnseenBelow(seen, n), x);
  }

  /** Each unseen index below `n` has its label among the unreferenced entries exactly once. */
  lemma UnreferencedMultiset(c: seq<Component>, seen: set<nat>, n: nat)
    requires n <= |c|
    ensures forall x: nat :: multiset(LabelIndices(Unreferenced(c, seen, n)))[x]
                             == if x < n && x !in seen then 1 else 0
  {
    UnreferencedIndices(c, seen, n);
    forall x: nat {
      UnseenBelowCount(seen, n, x);
    }
  }

  /** Every unseen index below `n` has its label among the unreferenced entries. */
  lemma {:induction false} UnreferencedComplete(c: seq<Component>, seen: set<nat>, n: nat)
    requires n <= |c|
    ensures forall x :: 0 <= x < n && x !in seen ==> Label(x, c[x]) in Unreferenced(c, seen, n)
  {
    if n > 0 {
      UnreferencedComplete(c, seen, n - 1);
      assert Unreferenced(c, seen, n)
          == Unreferenced(c, seen, n - 1) + Opt(n - 1 !in seen, Label(n - 1, c[n - 1]));
    }
  }

  /**
   * On success each component index in range contributes its catalog label exactly once,
   * with the label of its own kind, and no other index contributes one.
   */
  lemma EachComponentLabelledOnce(c: seq<Component>, ls: seq<Line>)
    requires Run(c, ls).Ok?
    ensures forall x: nat :: multiset(LabelIndices(Run(c, ls).value))[x] == if x < |c| then 1 else 0
    ensures forall e :: e in Run(c, ls).value && e.Label? ==> e.index < |c| && e.kind == c[e.index]
  {
    var p := Walk(c, ls).value;
    WalkKeepsInvariant(c, ls);
    var u := Unreferenced(c, p.seen, |c|);
    UnreferencedMultiset(c, p.seen, |c|);
    UnreferencedLabels(c, p.seen, |c|);
    LabelIndicesAppend(p.out, u);
    assert Run(c, ls).value == p.out + u;
    assert multiset(LabelIndices(p.out + u)) == multiset(LabelIndices(p.out)) + multiset(LabelIndices(u));
  }

  function Range(n: nat): seq<nat>
  {
    if n == 0 then [] else Range(n - 1) + [n - 1]
  }

  lemma {:induction false} RangeMultiset(n: nat)
    ensures |Range(n)| == n
    ensures forall x :: multiset(Range(n))[x] == if 0 <= x < n then 1 else 0
  {
    if n > 0 {
      RangeMultiset(n - 1);
    }
  }

  lemma {:induction false} CountClassified(out: seq<Entry>)
    requires forall e :: e in out ==> (IsCatalogLabel(Name(e)) <==> e.Label?)
    ensures CatalogLabelCount(Names(out)) == |LabelIndices(out)|
  {
    if out != [] {
      CountClassified(out[1..]);
      assert Names(out)[1..] == Names(out[1..]);
    }
  }

  /** On success the response holds exactly as many catalog labels as there are components. */
  lemma CatalogLabelsMatchComponents(c: seq<Component>, ls: seq<Line>)
    requires Handleliste(c, ls).Ok?
    ensures CatalogLabelCount(Handleliste(c, ls).value) == |c|
  {
    var out := Run(c, ls).value;
    EachComponentLabelledOnce(c, ls);
    var p := Walk(c, ls).value;
    WalkKeepsInvariant(c, ls);
    UnreferencedLabels(c, p.seen, |c|);
    assert out == p.out + Unreferenced(c, p.seen, |c|);
    forall e | e in out
      ensures IsCatalogLabel(Name(e)) <==> e.Label?
    {
      if e !in p.out {
        assert e in Unreferenced(c, p.seen, |c|);
      }
    }
    CountClassified(out);
    RangeMultiset(|c|);
    assert multiset(LabelIndices(out)) == multiset(Range(|c|));
    assert |LabelIndices(out)| == |multiset(LabelIndices(out))| == |multiset(Range(|c|))|;
  }

  // ---------------------------------------------------------------------------------
  // Unreferenced components

  /** On success the output is the line pass's items followed by the unreferenced labels. */
  lemma RunSplits(c: seq<Component>, ls: seq<Line>)
    requires Run(c, ls).Ok?
    ensures Walk(c, ls).Ok?
    ensures Run(c, ls).value == Walk(c, ls).value.out + Unreferenced(c, Referenced(ls), |c|)
  {
    WalkSeen(c, ls);
  }

  /**
   * On success the output is the line items followed by the labels of the components no
   * line references, each once, in increasing index order.
   */
  lemma UnreferencedComeLast(c: seq<Component>, ls: seq<Line>)
    requires Run(c, ls).Ok?
    ensures Walk(c, ls).Ok? && Walk(c, ls).value.out <= Run(c, ls).value
    ensures var t := Run(c, ls).value[|Walk(c, ls).value.out|..];
            && (forall e :: e in t ==> e.Label? && e.index < |c| && e.index !in Referenced(ls))
            && (forall i, j :: 0 <= i < j < |t| ==> t[i].Label? && t[j].Label? && t[i].index < t[j].index)
            && (forall x: nat :: x < |c| && x !in Referenced(ls) ==> Label(x, c[x]) in t)
  {
    RunSplits(c, ls);
    var u := Unreferenced(c, Referenced(ls), |c|);
    UnreferencedLabels(c, Referenced(ls), |c|);
    UnreferencedIncreasing(c, Referenced(ls), |c|);
    UnreferencedComplete(c, Referenced(ls), |c|);
    var out := Walk(c, ls).value.out;
    assert (out + u)[|out|..] == u;
    assert (out + u)[..|out|] == out;
  }

  /** With no lines the response is the catalog labels of the components, in their order. */
  lemma NoLinesGivesLabelsInOrder(c: seq<Component>)
    ensures Handleliste(c, []).Ok?
    ensures |Handleliste(c, []).value| == |c|
    ensures forall i :: 0 <= i < |c| ==> Handleliste(c, []).value[i] == Catalog(c[i])
  {
    var u := Unreferenced(c, {}, |c|);
    UnreferencedNoneSeen(c, |c|);
    assert Run(c, []) == Ok([] + u);
    assert [] + u == u;
    var r := Handleliste(c, []).value;
    forall i | 0 <= i < |c| ensures r[i] == Catalog(c[i]) {
      assert r[i] == Name(u[i]);
    }
  }

  /** With nothing seen, the trailing entries are the labels of all components, in order. */
  lemma {:induction false} UnreferencedNoneSeen(c: seq<Component>, n: nat)
    requires n <= |c|
    ensures |Unreferenced(c, {}, n)| == n
    ensures forall i :: 0 <= i < n ==> Unreferenced(c, {}, n)[i] == Label(i, c[i])
  {
    if n > 0 {
      UnreferencedNoneSeen(c, n - 1);
      var u := Unreferenced(c, {}, n - 1);
      var r := u + [Label(n - 1, c[n - 1])];
      assert Unreferenced(c, {}, n) == r;
      forall i | 0 <= i < n ensures r[i] == Label(i, c[i]) {
        if i < n - 1 {
          assert r[i] == u[i];
        }
      }
    }
  }

  // ---------------------------------------------------------------------------------
  // Append-only output and the size map

  /** Items are only ever appended: the output after a prefix of the lines is a prefix of the final one. */
  lemma {:induction false} AppendOnly(c: seq<Component>, ls: seq<Line>, k: nat)
    requires Walk(c, ls).Ok? && k <= |ls|
    ensures Walk(c, ls[..k]).Ok?
    ensures Walk(c, ls[..k]).value.out <= Walk(c, ls).value.out
    decreases |ls|
  {
    if k < |ls| {
      var init := ls[..|ls| - 1];
      assert init[..k] == ls[..k];
      AppendOnly(c, init, k);
    } else {
      assert ls[..k] == ls;
    }
  }

  /** After a line is accepted, the size recorded for both of its ends is the line's size. */
  lemma SizesAfterLine(c: seq<Component>, ls: seq<Line>, l: Line)
    requires Walk(c, ls + [l]).Ok?
    ensures l.start in Walk(c, ls + [l]).value.sizes && Walk(c, ls + [l]).value.sizes[l.start] == l.size
    ensures l.end in Walk(c, ls + [l]).value.sizes && Walk(c, ls + [l]).value.sizes[l.end] == l.size
  {
    assert (ls + [l])[..|ls|] == ls;
  }

  /** When every index is seen no label is appended. */
  lemma {:induction false} UnreferencedNoneLeft(c: seq<Component>, seen: set<nat>, n: nat)
    requires n <= |c| && forall x: nat :: x < n ==> x in seen
    ensures Unreferenced(c, seen, n) == []
  {
    if n > 0 {
      UnreferencedNoneLeft(c, seen, n - 1);
    }
  }

  // ---------------------------------------------------------------------------------
  // Worked examples

  /** Four components and no lines: the labels in order (the endpoint's documented response). */
  lemma FourComponentsNoLines()
    ensures Handleliste([Pipe, Valve, Pump, Flange], [])
         == Ok(["Pipe Item", "Valve Item", "Pump Item", "Flange Item"])
  {
    var c := [Pipe, Valve, Pump, Flange];
    NoLinesGivesLabelsInOrder(c);
    var r := Handleliste(c, []).value;
    assert |r| == 4;
    assert r[0] == Catalog(Pipe) == "Pipe Item";
    assert r[1] == Catalog(Valve) == "Valve Item";
    assert r[2] == Catalog(Pump) == "Pump Item";
    assert r[3] == Catalog(Flange) == "Flange Item";
    assert r == ["Pipe Item", "Valve Item", "Pump Item", "Flange Item"];
  }

  /** The first two lines of a chain pipe, valve, pump, flange of one size. */
  lemma ChainPrefix(c: seq<Component>, l0: Line, l1: Line)
    requires c == [Pipe, Valve, Pump, Flange]
    requires l0 == Line(0, 1, "1/2", false, false) && l1 == Line(1, 2, "1/2", false, false)
    ensures Walk(c, [l0, l1])
         == Ok(Pass([Label(0, Pipe), Fitting("Parker Coupling"), Label(1, Valve), Fitting(Adapter),
                     Label(2, Pump)], {0, 1, 2}, map[0 := "1/2", 1 := "1/2", 2 := "1/2"]))
  {
    assert [l0, l1][..1] == [l0] && [l0][..0] == [];
    var b0 := [Label(0, Pipe), Fitting("Parker Coupling"), Label(1, Valve)];
    assert LineChoices(c, Initial, l0) == Choices(true, false, Some("Parker Coupling"), false, false, true);
    assert Block(c, Initial, l0) == b0;
    var p0 := Pass(Initial.out + b0, Initial.seen + {0, 1}, Initial.sizes[0 := "1/2"][1 := "1/2"]);
    assert Walk(c, [l0]) == Step(c, Initial, l0) == Ok(p0);
    var b1 := [Fitting(Adapter), Label(2, Pump)];
    assert LineChoices(c, p0, l1) == Choices(false, false, Some(Adapter), false, false, true);
    assert Block(c, p0, l1) == b1;
    var p1 := Pass(p0.out + b1, p0.seen + {1, 2}, p0.sizes[1 := "1/2"][2 := "1/2"]);
    assert Walk(c, [l0, l1]) == Step(c, p0, l1) == Ok(p1);
    assert p1.out == [Label(0, Pipe), Fitting("Parker Coupling"), Label(1, Valve), Fitting(Adapter),
                      Label(2, Pump)];
    assert p1.seen == {0, 1, 2};
    assert p1.sizes == map[0 := "1/2", 1 := "1/2", 2 := "1/2"];
  }

  /** The line pass over a chain pipe, valve, pump, flange of one size. */
  lemma ChainWalk(c: seq<Component>, l0: Line, l1: Line, l2: Line) returns (p2: Pass)
    requires c == [Pipe, Valve, Pump, Flange]
    requires l0 == Line(0, 1, "1/2", false, false) && l1 == Line(1, 2, "1/2", false, false)
    requires l2 == Line(2, 3, "1/2", false, false)
    ensures Walk(c, [l0, l1, l2]) == Ok(p2) && p2.seen == {0, 1, 2, 3}
    ensures p2.out == [Label(0, Pipe), Fitting("Parker Coupling"), Label(1, Valve), Fitting(Adapter),
                       Label(2, Pump), Fitting("Parker Connector"), Label(3, Flange)]
  {
    var ls := [l0, l1, l2];
    assert ls[..2] == [l0, l1];
    ChainPrefix(c, l0, l1);
    p2 := ChainLastStep(c, Walk(c, [l0, l1]).value, l2);
    assert Walk(c, ls) == Step(c, Walk(c, [l0, l1]).value, l2);
  }

  /** The third line of that chain, from pump to flange. */
  lemma ChainLastStep(c: seq<Component>, p1: Pass, l2: Line) returns (p2: Pass)
    requires c == [Pipe, Valve, Pump, Flange] && l2 == Line(2, 3, "1/2", false, false)
    requires p1.out == [Label(0, Pipe), Fitting("Parker Coupling"), Label(1, Valve), Fitting(Adapter),
                        Label(2, Pump)]
    requires p1.seen == {0, 1, 2} && p1.sizes == map[0 := "1/2", 1 := "1/2", 2 := "1/2"]
    ensures Step(c, p1, l2) == Ok(p2) && p2.seen == {0, 1, 2, 3}
    ensures p2.out == [Label(0, Pipe), Fitting("Parker Coupling"), Label(1, Valve), Fitting(Adapter),
                       Label(2, Pump), Fitting("Parker Connector"), Label(3, Flange)]
  {
    var b2 := [Fitting("Parker Connector"), Label(3, Flange)];
    assert LineChoices(c, p1, l2) == Choices(false, false, Some("Parker Connector"), false, false, true);
    assert Block(c, p1, l2) == b2;
    p2 := Pass(p1.out + b2, p1.seen + {2, 3}, p1.sizes[2 := "1/2"][3 := "1/2"]);
  }

  /** The entries of a chain pipe, valve, pump, flange of one size. */
  lemma ChainEntries(c: seq<Component>, l0: Line, l1: Line, l2: Line)
    requires c == [Pipe, Valve, Pump, Flange]
    requires l0 == Line(0, 1, "1/2", false, false) && l1 == Line(1, 2, "1/2", false, false)
    requires l2 == Line(2, 3, "1/2", false, false)
    ensures Run(c, [l0, l1, l2])
         == Ok([Label(0, Pipe), Fitting("Parker Coupling"), Label(1, Valve), Fitting(Adapter),
                Label(2, Pump), Fitting("Parker Connector"), Label(3, Flange)])
  {
    var p2 := ChainWalk(c, l0, l1, l2);
    var seen: set<nat> := {0, 1, 2, 3};
    assert Unreferenced(c, seen, 1) == [];
    assert Unreferenced(c, seen, 2) == [];
    assert Unreferenced(c, seen, 3) == [];
    assert Unreferenced(c, seen, 4) == [];
    assert p2.out + [] == p2.out;
  }

  lemma ChainNames(out: seq<Entry>)
    requires out == [Label(0, Pipe), Fitting("Parker Coupling"), Label(1, Valve), Fitting(Adapter),
                     Label(2, Pump), Fitting("Parker Connector"), Label(3, Flange)]
    ensures Names(out) == ["Pipe Item", "Parker Coupling", "Valve Item", "Parker Adapter", "Pump Item",
                           "Parker Connector", "Flange Item"]
  {
    var r := Names(out);
    assert r[0] == "Pipe Item" && r[1] == "Parker Coupling" && r[2] == "Valve Item";
    assert r[3] == "Parker Adapter" && r[4] == "Pump Item";
    assert r[5] == "Parker Connector" && r[6] == "Flange Item";
  }

  /** A chain pipe, valve, pump, flange of one size: fittings between the labels. */
  lemma ChainOfOneSize()
    ensures Handleliste([Pipe, Valve, Pump, Flange],
                        [Line(0, 1, "1/2", false, false), Line(1, 2, "1/2", false, false),
                         Line(2, 3, "1/2", false, false)])
         == Ok(["Pipe Item", "Parker Coupling", "Valve Item", "Parker Adapter", "Pump Item",
                "Parker Connector", "Flange Item"])
  {
    var c := [Pipe, Valve, Pump, Flange];
    var l0, l1, l2 := Line(0, 1, "1/2", false, false), Line(1, 2, "1/2", false, false),
                      Line(2, 3, "1/2", false, false);
    ChainEntries(c, l0, l1, l2);
    ChainNames(Run(c, [l0, l1, l2]).value);
  }

  /** A pump followed by a pipe is not an allowed transition. */
  lemma PumpToPipeRejected()
    ensures Handleliste([Pump, Pipe], [Line(0, 1, "1/2", false, false)])
         == Err(InvalidTransition(Pump, Pipe))
    ensures Message(InvalidTransition(Pump, Pipe)) == "Invalid transition from pump to pipe"
  {
  }

  /** Without lines no transition is checked: a pump followed by a pipe is accepted. */
  lemma PumpThenPipeWithoutLines()
    ensures Handleliste([Pump, Pipe], []) == Ok(["Pump Item", "Pipe Item"])
  {
    var c := [Pump, Pipe];
    NoLinesGivesLabelsInOrder(c);
    var r := Handleliste(c, []).value;
    assert r[0] == Catalog(c[0]) && r[1] == Catalog(c[1]);
    assert r == ["Pump Item", "Pipe Item"];
  }
}
