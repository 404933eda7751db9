/**
 * The parts-list ("handleliste") generator: the component catalog, the fitting and
 * transition tables, a functional specification of the single pass over the lines,
 * and the imperative pass itself, proved equal to that specification.
 */
module Generator {
  import opened Wrappers

  /** The six component kinds a piping system is built from. */
  datatype Component = Pipe | Valve | Pump | Flange | Filter | Analyzer

  /** The tag a component carries in requests and error messages. */
  function Tag(c: Component): string
  {
    match c
    case Pipe => "pipe"
    case Valve => "valve"
    case Pump => "pump"
    case Flange => "flange"
    case Filter => "filter"
    case Analyzer => "analyzer"
  }

  /** A connection from the component at index `start` to the one at index `end`. */
  datatype Line = Line(start: nat, end: nat, size: string, tee: bool, bulkhead: bool)

  /** Why a pass is rejected. */
  datatype GenError =
    | InvalidIndex
    | InvalidTransition(from: Component, to: Component)

  /** The text of the error raised for `e`. */
  function Message(e: GenError): string
  {
    match e
    case InvalidIndex => "Line references invalid component index"
    case InvalidTransition(a, b) => "Invalid transition from " + Tag(a) + " to " + Tag(b)
  }

  /** CATALOG: the parts-list label of each component kind (total over the kinds). */
  function Catalog(c: Component): (r: string)
    ensures |r| > 5 && r[|r| - 5..] == " Item"
  {
    match c
    case Pipe => "Pipe Item"
    case Valve => "Valve Item"
    case Pump => "Pump Item"
    case Flange => "Flange Item"
    case Filter => "Filter Item"
    case Analyzer => "Analyzer Item"
  }

  /** FITTINGS: the fitting placed between an ordered pair of kinds, if the table has one. */
  function Fittings(a: Component, b: Component): (r: Option<string>)
    ensures r.Some? ==> b in Transitions(a)
    ensures r.Some? ==> |r.value| > 7 && r.value[..7] == "Parker "
  {
    match (a, b)
    case (Pipe, Valve) => Some("Parker Coupling")
    case (Valve, Pump) => Some("Parker Adapter")
    case (Pump, Flange) => Some("Parker Connector")
    case (Flange, Pipe) => Some("Parker Gasket")
    case (Pipe, Filter) => Some("Parker Coupling")
    case (Filter, Analyzer) => Some("Parker Connector")
    case (Analyzer, Flange) => Some("Parker Adapter")
    case _ => None
  }

  /** TRANSITIONS: the kinds a line may lead to from a given kind. */
  function Transitions(c: Component): (r: set<Component>)
    ensures r != {} && c !in r
  {
    match c
    case Pipe => {Valve, Flange, Filter}
    case Valve => {Pump, Filter}
    case Pump => {Flange}
    case Flange => {Pipe}
    case Filter => {Analyzer}
    case Analyzer => {Flange}
  }

  const Adapter := "Parker Adapter"
  const Bulkhead := "Parker Bulkhead"
  const Tee := "Parker Tee"

  /**
   * One item of the parts list together with where it comes from: the catalog label of
   * the component at `index`, the adapter for a size change, a table fitting, or a
   * bulkhead or tee part.
   */
  datatype Entry =
    | Label(index: nat, kind: Component)
    | SizeAdapter
    | Fitting(name: string)
    | BulkheadItem
    | TeeItem

  /** The text of an entry as it appears in the response. */
  function Name(e: Entry): string
  {
    match e
    case Label(_, k) => Catalog(k)
    case SizeAdapter => Adapter
    case Fitting(f) => f
    case BulkheadItem => Bulkhead
    case TeeItem => Tee
  }

  /** The strings of a sequence of entries, in order. */
  function Names(out: seq<Entry>): seq<string>
  {
    seq(|out|, i requires 0 <= i < |out| => Name(out[i]))
  }

  lemma NamesAppend(a: seq<Entry>, b: seq<Entry>)
    ensures Names(a + b) == Names(a) + Names(b)
  {
  }

  /** The state the pass carries from line to line: items so far, indices seen, last size per index. */
  datatype Pass = Pass(out: seq<Entry>, seen: set<nat>, sizes: map<nat, string>)

  const Initial := Pass([], {}, map[])

  /** Both ends of `l` name a component. */
  predicate InRange(c: seq<Component>, l: Line)
  {
    l.start < |c| && l.end < |c|
  }

  /** `l` names two components and the table allows a line from the first to the second. */
  predicate LineOk(c: seq<Component>, l: Line)
  {
    InRange(c, l) && c[l.end] in Transitions(c[l.start])
  }

  /** The error a rejected line raises: a bad index is reported before a bad transition. */
  function LineError(c: seq<Component>, l: Line): GenError
    requires !LineOk(c, l)
  {
    if !InRange(c, l) then InvalidIndex else InvalidTransition(c[l.start], c[l.end])
  }

  /** A one-element sequence when `b` holds, otherwise nothing. */
  function Opt<T>(b: bool, x: T): seq<T>
  {
    if b then [x] else []
  }

  /**
   * Which items a line contributes: its start label, the size adapter, a table fitting,
   * the bulkhead, the tee and its end label.
   */
  datatype Choices = Choices(startLabel: bool, adapter: bool, fitting: Option<string>,
                             bulkhead: bool, tee: bool, endLabel: bool)

  /**
   * The choices for an accepted line, given the state before it: a label for each end whose
   * index has not been seen (the end only if it differs from the start, which is seen by
   * then), the adapter when the start index was recorded with another size, and the
   * table's fitting for the ordered pair of kinds.
   */
  function LineChoices(c: seq<Component>, p: Pass, l: Line): Choices
    requires InRange(c, l)
  {
    Choices(l.start !in p.seen,
            l.start in p.sizes && p.sizes[l.start] != l.size,
            Fittings(c[l.start], c[l.end]),
            l.bulkhead,
            l.tee,
            l.end !in p.seen && l.end != l.start)
  }

  /** The items chosen by `ch` for a line from kind `a` to kind `b`, in the order they are appended. */
  function BlockOf(ch: Choices, l: Line, a: Component, b: Component): seq<Entry>
  {
    Opt(ch.startLabel, Label(l.start, a))
    + Opt(ch.adapter, SizeAdapter)
    + (match ch.fitting case Some(f) => [Fitting(f)] case None => [])
    + Opt(ch.bulkhead, BulkheadItem)
    + Opt(ch.tee, TeeItem)
    + Opt(ch.endLabel, Label(l.end, b))
  }

  /** The strings `BlockOf` stands for, written the way the pass appends them. */
  function BlockNamesOf(ch: Choices, a: Component, b: Component): seq<string>
  {
    Opt(ch.startLabel, Catalog(a))
    + Opt(ch.adapter, Adapter)
    + (match ch.fitting case Some(f) => [f] case None => [])
    + Opt(ch.bulkhead, Bulkhead)
    + Opt(ch.tee, Tee)
    + Opt(ch.endLabel, Catalog(b))
  }

  /** The items one accepted line contributes, given the state before it. */
  function Block(c: seq<Component>, p: Pass, l: Line): seq<Entry>
    requires LineOk(c, l)
  {
    BlockOf(LineChoices(c, p, l), l, c[l.start], c[l.end])
  }

  /** The strings one accepted line contributes. */
  function BlockNames(c: seq<Component>, p: Pass, l: Line): seq<string>
    requires LineOk(c, l)
  {
    BlockNamesOf(LineChoices(c, p, l), c[l.start], c[l.end])
  }

  lemma NamesSix(p0: seq<Entry>, p1: seq<Entry>, p2: seq<Entry>, p3: seq<Entry>,
                 p4: seq<Entry>, p5: seq<Entry>)
    ensures Names(p0 + p1 + p2 + p3 + p4 + p5)
         == Names(p0) + Names(p1) + Names(p2) + Names(p3) + Names(p4) + Names(p5)
  {
    NamesAppend(p0, p1);
    NamesAppend(p0 + p1, p2);
    NamesAppend(p0 + p1 + p2, p3);
    NamesAppend(p0 + p1 + p2 + p3, p4);
    NamesAppend(p0 + p1 + p2 + p3 + p4, p5);
  }

  lemma NamesOpt(b: bool, e: Entry)
    ensures Names(Opt(b, e)) == Opt(b, Name(e))
  {
  }

  /** The entries of a block name exactly the strings the pass appends for it. */
  lemma BlockNamesAgree(ch: Choices, l: Line, a: Component, b: Component)
    ensures Names(BlockOf(ch, l, a, b)) == BlockNamesOf(ch, a, b)
  {
    NamesSix(Opt(ch.startLabel, Label(l.start, a)), Opt(ch.adapter, SizeAdapter),
             (match ch.fitting case Some(f) => [Fitting(f)] case None => []),
             Opt(ch.bulkhead, BulkheadItem), Opt(ch.tee, TeeItem), Opt(ch.endLabel, Label(l.end, b)));
    NamesOpt(ch.startLabel, Label(l.start, a));
    NamesOpt(ch.adapter, SizeAdapter);
    NamesOpt(ch.bulkhead, BulkheadItem);
    NamesOpt(ch.tee, TeeItem);
    NamesOpt(ch.endLabel, Label(l.end, b));
    if ch.fitting.Some? {
      NamesOpt(true, Fitting(ch.fitting.value));
    }
  }

  /** Processing one line: reject it, or append its block and record both ends and its size. */
  function Step(c: seq<Component>, p: Pass, l: Line): (r: Result<Pass, GenError>)
    ensures r.Err? <==> !LineOk(c, l)
    ensures r.Ok? ==> p.out <= r.value.out && |r.value.out| <= |p.out| + 6
    ensures r.Ok? ==> r.value.seen == p.seen + {l.start, l.end}
    ensures r.Ok? ==> r.value.sizes.Keys == p.sizes.Keys + {l.start, l.end}
  {
    if !LineOk(c, l) then Err(LineError(c, l))
    else Ok(Pass(p.out + Block(c, p, l), p.seen + {l.start, l.end},
                 p.sizes[l.start := l.size][l.end := l.size]))
  }

  /** The pass over `ls` in order; the first rejected line ends it. */
  function Walk(c: seq<Component>, ls: seq<Line>): (r: Result<Pass, GenError>)
    ensures r.Ok? ==> forall x :: x in r.value.seen ==> x < |c|
    ensures r.Ok? ==> r.value.sizes.Keys == r.value.seen
    ensures r.Ok? ==> |r.value.out| <= 6 * |ls|
  {
    if ls == [] then Ok(Initial)
    else match Walk(c, ls[..|ls| - 1])
      case Err(e) => Err(e)
      case Ok(p) => Step(c, p, ls[|ls| - 1])
  }

  /** Labels, in index order, of the components among the first `n` that `seen` lacks. */
  function Unreferenced(c: seq<Component>, seen: set<nat>, n: nat): (r: seq<Entry>)
    requires n <= |c|
    ensures |r| <= n
    ensures forall i :: 0 <= i < |r| ==>
              r[i].Label? && r[i].index < n && r[i].index !in seen && r[i].kind == c[r[i].index]
    ensures forall i, j :: 0 <= i < j < |r| ==> r[i].index < r[j].index
  {
    if n == 0 then []
    else Unreferenced(c, seen, n - 1)
         + (if n - 1 !in seen then [Label(n - 1, c[n - 1])] else [])
  }

  /** The whole generator on entries: the line pass, then the unreferenced components. */
  function Run(c: seq<Component>, ls: seq<Line>): (r: Result<seq<Entry>, GenError>)
    ensures r.Err? <==> Walk(c, ls).Err?
    ensures r.Err? ==> r.error == Walk(c, ls).error
    ensures r.Ok? ==> Walk(c, ls).value.out <= r.value
    ensures r.Ok? ==> |r.value| <= 6 * |ls| + |c|
  {
    match Walk(c, ls)
    case Err(e) => Err(e)
    case Ok(p) => Ok(p.out + Unreferenced(c, p.seen, |c|))
  }

  /** The response of the generator: the names of the entries, or the error. */
  function Handleliste(c: seq<Component>, ls: seq<Line>): (r: Result<seq<string>, GenError>)
    ensures r.Err? <==> Walk(c, ls).Err?
    ensures r.Err? ==> r.error == Walk(c, ls).error
    ensures r.Ok? ==> |r.value| == |Run(c, ls).value| <= 6 * |ls| + |c|
  {
    match Run(c, ls)
    case Err(e) => Err(e)
    case Ok(out) => Ok(Names(out))
  }

  /** Once a prefix of the lines is rejected, the whole pass fails with the same error. */
  lemma {:induction false} ErrorIsFinal(c: seq<Component>, ls: seq<Line>, k: nat)
    requires k <= |ls| && Walk(c, ls[..k]).Err?
    ensures Walk(c, ls) == Walk(c, ls[..k])
    decreases |ls| - k
  {
    if k < |ls| {
      var ls' := ls[..k + 1];
      assert ls'[..|ls'| - 1] == ls[..k];
      ErrorIsFinal(c, ls, k + 1);
    } else {
      assert ls[..k] == ls;
    }
  }

  /**
   * The imperative pass: an item list, a seen-set and a size map updated line by line,
   * then a second loop for the components no line referenced.
   */
  method GenerateHandleliste(components: seq<Component>, lines: seq<Line>)
    returns (r: Result<seq<string>, GenError>)
    ensures r == Handleliste(components, lines)
  {
    // Every kind has a catalog label, so the unknown-component check cannot fail.
    var items: seq<string> := [];
    var seen: set<nat> := {};
    var sizes: map<nat, string> := map[];
    ghost var out: seq<Entry> := [];

    var i := 0;
    while i < |lines|
      invariant i <= |lines|
      invariant Walk(components, lines[..i]) == Ok(Pass(out, seen, sizes))
      invariant items == Names(out)
    {
      assert lines[..i + 1][..i] == lines[..i];
      assert lines[..i + 1][i] == lines[i];
      var step := AddLine(components, lines[i], seen, sizes);
      if step.Err? {
        ErrorIsFinal(components, lines, i + 1);
        return Err(step.error);
      }
      ghost var block := Block(components, Pass(out, seen, sizes), lines[i]);
      BlockNamesAgree(LineChoices(components, Pass(out, seen, sizes), lines[i]), lines[i],
                      components[lines[i].start], components[lines[i].end]);
      NamesAppend(out, block);
      items, seen, sizes, out := items + step.value.0, step.value.1, step.value.2, out + block;
      i := i + 1;
    }
    assert lines[..i] == lines;
    NamesAppend(out, Unreferenced(components, seen, |components|));
    items := AppendUnreferenced(components, seen, items);
    r := Ok(items);
  }

  /**
   * The body of the line loop: the items the line adds to the list, and the seen-set and
   * size map after it, or the line's error.
   */
  method AddLine(components: seq<Component>, line: Line, seen0: set<nat>, sizes0: map<nat, string>)
    returns (r: Result<(seq<string>, set<nat>, map<nat, string>), GenError>)
    ensures r.Err? <==> !LineOk(components, line)
    ensures r.Err? ==> r.error == LineError(components, line)
    ensures r.Ok? ==> r.value.0 == BlockNames(components, Pass([], seen0, sizes0), line)
    ensures r.Ok? ==> r.value.1 == seen0 + {line.start, line.end}
    ensures r.Ok? ==> r.value.2 == sizes0[line.start := line.size][line.end := line.size]
  {
    if !(line.start < |components| && line.end < |components|) {
      return Err(InvalidIndex);
    }
    var startComp, endComp := components[line.start], components[line.end];
    var items: seq<string>, seen: set<nat>, sizes: map<nat, string> := [], seen0, sizes0;
    ghost var ch := LineChoices(components, Pass([], seen0, sizes0), line);

    if line.start !in seen {
      items := items + [Catalog(startComp)];
      seen := seen + {line.start};
    }
    ghost var i0 := items;
    assert i0 == Opt(ch.startLabel, Catalog(startComp));

    if endComp !in Transitions(startComp) {
      return Err(InvalidTransition(startComp, endComp));
    }

    var prevSize := if line.start in sizes then Some(sizes[line.start]) else None;
    if prevSize.Some? && prevSize.value != line.size {
      items := items + [Adapter];
    }
    ghost var i1 := items;
    assert i1 == i0 + Opt(ch.adapter, Adapter);

    var fitting := Fittings(startComp, endComp);
    if fitting.Some? {
      items := items + [fitting.value];
    }
    ghost var i2 := items;
    assert i2 == i1 + (match ch.fitting case Some(f) => [f] case None => []);

    if line.bulkhead {
      items := items + [Bulkhead];
    }
    ghost var i3 := items;
    assert i3 == i2 + Opt(ch.bulkhead, Bulkhead);

    if line.tee {
      items := items + [Tee];
    }
    ghost var i4 := items;
    assert i4 == i3 + Opt(ch.tee, Tee);

    sizes := sizes[line.start := line.size];
    sizes := sizes[line.end := line.size];

    if line.end !in seen {
      items := items + [Catalog(endComp)];
      seen := seen + {line.end};
    }
    assert items == i4 + Opt(ch.endLabel, Catalog(endComp));
    assert items == BlockNamesOf(ch, startComp, endComp);
    assert seen == seen0 + {line.start, line.end};
    r := Ok((items, seen, sizes));
  }

  /** The second loop: the label of every component the line pass did not see, in index order. */
  method AppendUnreferenced(components: seq<Component>, seen: set<nat>, items: seq<string>)
    returns (result: seq<string>)
    ensures result == items + Names(Unreferenced(components, seen, |components|))
  {
    result := items;
    var idx := 0;
    while idx < |components|
      invariant idx <= |components|
      invariant result == items + Names(Unreferenced(components, seen, idx))
    {
      ghost var extra := if idx !in seen then [Label(idx, components[idx])] else [];
      NamesAppend(Unreferenced(components, seen, idx), extra);
      if idx !in seen {
        result := result + [Catalog(components[idx])];
      }
      idx := idx + 1;
    }
  }
}
