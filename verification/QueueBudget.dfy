/**
The budget in front of the SDK's export queue (tracing/queue_budget.go). A span is reserved when it
ends, queued by the SDK, taken out with a batch, and given back when the exporter is done with the
batch. Every one of these is a step of its own, so any number of spans can be between two of them.
*/
module QueueBudget {

  // ---------------------------------------------------------------------------
  // The size of a span
  // ---------------------------------------------------------------------------

  /** A value by what counts for its size: the lengths of its strings, or of its list. */
  datatype Value = Str(len: nat) | Strs(lens: seq<nat>) | Bools(n: nat) | Ints(n: nat) | Floats(n: nat) | Other

  datatype Attribute = Attribute(key: nat, value: Value)

  datatype SpanEvent = SpanEvent(name: nat, attributes: seq<Attribute>)

  datatype Span = Span(name: nat, attributes: seq<Attribute>, events: seq<SpanEvent>, sampled: bool)

  const OVERHEAD: nat := 512

  function Sum(ns: seq<nat>): nat {
    if ns == [] then 0 else Sum(ns[..|ns| - 1]) + ns[|ns| - 1]
  }

  function ValueSize(v: Value): nat {
    match v
    case Str(len) => len
    case Strs(lens) => Sum(lens)
    case Bools(n) => n
    case Ints(n) => 8 * n
    case Floats(n) => 8 * n
    case Other => 8
  }

  function AttributesSize(attributes: seq<Attribute>): nat {
    if attributes == [] then 0
    else
      var a := attributes[|attributes| - 1];
      AttributesSize(attributes[..|attributes| - 1]) + a.key + ValueSize(a.value)
  }

  function EventsSize(es: seq<SpanEvent>): nat {
    if es == [] then 0 else EventsSize(es[..|es| - 1]) + es[|es| - 1].name + AttributesSize(es[|es| - 1].attributes)
  }

  function SpanSize(s: Span): nat {
    OVERHEAD + s.name + AttributesSize(s.attributes) + EventsSize(s.events)
  }

  method SizeOfAttributes(attributes: seq<Attribute>) returns (size: nat)
    ensures size == AttributesSize(attributes)
  {
    size := 0;
    for i := 0 to |attributes|
      invariant size == AttributesSize(attributes[..i])
    {
      assert attributes[..i + 1][..i] == attributes[..i];
      var kv := attributes[i];
      size := size + kv.key;
      match kv.value
      case Str(len) => size := size + len;
      case Strs(lens) =>
        ghost var before := size;
        for j := 0 to |lens|
          invariant size == before + Sum(lens[..j])
        {
          assert lens[..j + 1][..j] == lens[..j];
          size := size + lens[j];
        }
        assert lens[..|lens|] == lens;
      case Bools(n) => size := size + n;
      case Ints(n) => size := size + 8 * n;
      case Floats(n) => size := size + 8 * n;
      case Other => size := size + 8;
    }
    assert attributes[..|attributes|] == attributes;
  }

  method SizeOfSpan(s: Span) returns (size: nat)
    ensures size == SpanSize(s)
  {
    size := OVERHEAD + s.name;
    var attributes := SizeOfAttributes(s.attributes);
    size := size + attributes;
    for i := 0 to |s.events|
      invariant size == OVERHEAD + s.name + AttributesSize(s.attributes) + EventsSize(s.events[..i])
    {
      assert s.events[..i + 1][..i] == s.events[..i];
      var more := SizeOfAttributes(s.events[i].attributes);
      size := size + s.events[i].name + more;
    }
    assert s.events[..|s.events|] == s.events;
  }

  /** Every attribute of a span is in its size, with its value, and so is every event. */
  lemma {:induction false} AttributesCount(a: seq<Attribute>, b: seq<Attribute>)
    ensures AttributesSize(a + b) == AttributesSize(a) + AttributesSize(b)
  {
    if b == [] {
      assert a + b == a;
    } else {
      AttributesCount(a, b[..|b| - 1]);
      assert (a + b)[..|a + b| - 1] == a + b[..|b| - 1];
    }
  }

  lemma SizeCountsEveryBody(s: Span, i: nat)
    requires i < |s.attributes|
    ensures SpanSize(s) ==
      SpanSize(s.(attributes := s.attributes[..i] + s.attributes[i + 1..])) + s.attributes[i].key + ValueSize(s.attributes[i].value)
    ensures SpanSize(s) >= OVERHEAD
  {
    var a, b, c := s.attributes[..i], [s.attributes[i]], s.attributes[i + 1..];
    assert s.attributes == a + (b + c);
    AttributesCount(a, b + c);
    AttributesCount(b, c);
    AttributesCount(a, c);
    assert b[..0] == [];
  }

  function Total(spans: seq<Span>): nat {
    if spans == [] then 0 else Total(spans[..|spans| - 1]) + SpanSize(spans[|spans| - 1])
  }

  lemma {:induction false} TotalConcat(a: seq<Span>, b: seq<Span>)
    ensures Total(a + b) == Total(a) + Total(b)
  {
    if b == [] {
      assert a + b == a;
    } else {
      var n := |b| - 1;
      TotalConcat(a, b[..n]);
      assert (a + b)[..|a + b| - 1] == a + b[..n];
    }
  }

  // ---------------------------------------------------------------------------
  // The budget
  // ---------------------------------------------------------------------------

  datatype Limits = Limits(maxBytes: int, maxSpans: int)
  datatype Count = Count(bytes: int, spans: int, dropped: nat)

  function Reserved(l: Limits, c: Count, s: Span): (Count, bool) {
    if c.spans + 1 > l.maxSpans || c.bytes + SpanSize(s) > l.maxBytes then (c.(dropped := c.dropped + 1), false)
    else (Count(c.bytes + SpanSize(s), c.spans + 1, c.dropped), true)
  }

  function Released(c: Count, done: seq<Span>): Count {
    c.(bytes := c.bytes - Total(done), spans := c.spans - |done|)
  }

  class Budget {
    const maxBytes: int
    const maxSpans: int
    var bytes: int
    var spans: int
    var dropped: nat

    constructor (maxBytes: int, maxSpans: int)
      ensures this.maxBytes == maxBytes && this.maxSpans == maxSpans && bytes == 0 && spans == 0 && dropped == 0
    {
      this.maxBytes, this.maxSpans := maxBytes, maxSpans;
      bytes, spans, dropped := 0, 0, 0;
    }

    function View(): Count
      reads this
    {
      Count(bytes, spans, dropped)
    }

    method Reserve(s: Span) returns (ok: bool)
      modifies this
      ensures (View(), ok) == Reserved(Limits(maxBytes, maxSpans), old(View()), s)
      ensures ok ==> bytes <= maxBytes && spans <= maxSpans
    {
      var size := SizeOfSpan(s);
      if spans + 1 > maxSpans || bytes + size > maxBytes {
        dropped := dropped + 1;
        return false;
      }
      spans := spans + 1;
      bytes := bytes + size;
      ok := true;
    }

    method Release(done: seq<Span>)
      modifies this`bytes, this`spans
      ensures View() == Released(old(View()), done)
    {
      var size := 0;
      for i := 0 to |done|
        invariant size == Total(done[..i]) && View() == old(View())
      {
        assert done[..i + 1][..i] == done[..i];
        var more := SizeOfSpan(done[i]);
        size := size + more;
      }
      assert done[..|done|] == done;
      spans := spans - |done|;
      bytes := bytes - size;
    }
  }

  // ---------------------------------------------------------------------------
  // Runs
  // ---------------------------------------------------------------------------

  /** Where reserved spans are: on their way to the SDK, in its queue, with the exporter. `lost` counts
      those the SDK had no room for. */
  datatype State = State(c: Count, ending: seq<Span>, queue: seq<Span>, exporting: seq<Span>, lost: nat)

  const EMPTY := State(Count(0, 0, 0), [], [], [], 0)

  datatype Step =
    | Ends(s: Span)
    | Enqueues(i: nat)
    | TakesBatch(n: nat)
    | Exported(from: nat, n: nat)

  ghost predicate Enabled(x: State, st: Step) {
    match st
    case Ends(_) => true
    case Enqueues(i) => i < |x.ending|
    case TakesBatch(n) => n <= |x.queue|
    case Exported(from, n) => from + n <= |x.exporting|
  }

  /** An SDK queue of that capacity: a span it has no room for is dropped without a word. */
  function Next(l: Limits, x: State, st: Step): State
    requires Enabled(x, st)
  {
    match st
    case Ends(s) =>
      if !s.sampled then x
      else
        var (c, ok) := Reserved(l, x.c, s);
        x.(c := c, ending := if ok then x.ending + [s] else x.ending)
    case Enqueues(i) =>
      var y := x.(ending := x.ending[..i] + x.ending[i + 1..]);
      if |x.queue| < l.maxSpans then y.(queue := x.queue + [x.ending[i]]) else y.(lost := x.lost + 1)
    case TakesBatch(n) => x.(queue := x.queue[n..], exporting := x.exporting + x.queue[..n])
    case Exported(from, n) =>
      x.(c := Released(x.c, x.exporting[from..from + n]), exporting := x.exporting[..from] + x.exporting[from + n..])
  }

  /** What is reserved is what is on its way, and within both limits, and nothing was lost. */
  ghost predicate Ok(l: Limits, x: State) {
    && x.c.spans == |x.ending| + |x.queue| + |x.exporting|
    && x.c.bytes == Total(x.ending) + Total(x.queue) + Total(x.exporting)
    && (x.c.spans > 0 ==> x.c.spans <= l.maxSpans && x.c.bytes <= l.maxBytes)
    && x.lost == 0
  }

  lemma StepKeeps(l: Limits, x: State, st: Step)
    requires Ok(l, x) && Enabled(x, st)
    ensures Ok(l, Next(l, x, st))
  {
    hide SpanSize, Total;
    match st
    case Ends(s) =>
      TotalOne(s);
      TotalConcat(x.ending, [s]);
    case Enqueues(i) =>
      var s := x.ending[i];
      Cut(x.ending, i, 1);
      TotalOne(s);
      assert x.ending[i..i + 1] == [s];
      TotalConcat(x.queue, [s]);
    case TakesBatch(n) =>
      Cut(x.queue, 0, n);
      assert x.queue[..0] + x.queue[0 + n..] == x.queue[n..] && x.queue[0..0 + n] == x.queue[..n];
      TotalConcat(x.exporting, x.queue[..n]);
    case Exported(from, n) =>
      Cut(x.exporting, from, n);
  }

  lemma TotalOne(s: Span)
    ensures Total([s]) == SpanSize(s)
  {
    assert [s][..0] == [];
  }

  lemma Cut(s: seq<Span>, from: nat, n: nat)
    requires from + n <= |s|
    ensures Total(s) == Total(s[..from] + s[from + n..]) + Total(s[from..from + n])
  {
    hide Total;
    var a, b, c := s[..from], s[from..from + n], s[from + n..];
    assert s == (a + b) + c;
    TotalConcat(a + b, c);
    TotalConcat(a, b);
    TotalConcat(a, c);
  }

  ghost predicate IsRun(l: Limits, xs: seq<State>, steps: seq<Step>) {
    && |xs| == |steps| + 1 && xs[0] == EMPTY
    && forall i {:trigger steps[i]} :: 0 <= i < |steps| ==> Enabled(xs[i], steps[i]) && xs[i + 1] == Next(l, xs[i], steps[i])
  }

  /** In every run the reserved bytes are the sizes of the spans not yet exported, they stay within the
      limits and go back to zero, and a queue of maxSpans never has to drop a reserved span. */
  lemma {:induction false} BudgetIsExact(l: Limits, xs: seq<State>, steps: seq<Step>, n: nat)
    requires IsRun(l, xs, steps) && n <= |steps|
    ensures |xs| == |steps| + 1 && Ok(l, xs[n])
    ensures xs[n].ending == xs[n].queue == xs[n].exporting == [] ==> xs[n].c.bytes == 0 && xs[n].c.spans == 0
  {
    hide Next, Enabled;
    if n > 0 {
      BudgetIsExact(l, xs, steps, n - 1);
      assert steps[n - 1] == steps[n - 1];
      StepKeeps(l, xs[n - 1], steps[n - 1]);
    }
  }

  /** The spans that are on their way. */
  function OnTheirWay(x: State): seq<Span> {
    x.ending + x.queue + x.exporting
  }

  /** In every state of every run: a span that ends is taken if and only if it is sampled, the spans on
      their way leave room for one more, and their sizes leave room for its size; and a sampled span that
      is not taken is counted as dropped. */
  lemma TakenIffThereIsRoom(l: Limits, xs: seq<State>, steps: seq<Step>, n: nat, s: Span)
    requires IsRun(l, xs, steps) && n < |steps| && steps[n] == Ends(s)
    ensures |xs| == |steps| + 1
    ensures var x, y := xs[n], xs[n + 1];
      var room := |OnTheirWay(x)| + 1 <= l.maxSpans && Total(OnTheirWay(x)) + SpanSize(s) <= l.maxBytes;
      && y.ending == x.ending + (if s.sampled && room then [s] else [])
      && y.c.dropped == x.c.dropped + (if s.sampled && !room then 1 else 0)
      && y.queue == x.queue && y.exporting == x.exporting
  {
    BudgetIsExact(l, xs, steps, n);
    var x := xs[n];
    TotalConcat(x.ending + x.queue, x.exporting);
    TotalConcat(x.ending, x.queue);
    assert steps[n] == steps[n];
    assert xs[n + 1] == Next(l, xs[n], steps[n]);
    hide SpanSize, Total, IsRun;
    assert x.ending + [] == x.ending;
  }

  /** How many sampled spans ended in the first n steps, and how many were exported. */
  function Ended(steps: seq<Step>, n: nat): nat
    requires n <= |steps|
  {
    if n == 0 then 0 else Ended(steps, n - 1) + if steps[n - 1].Ends? && steps[n - 1].s.sampled then 1 else 0
  }

  function Sent(steps: seq<Step>, n: nat): nat
    requires n <= |steps|
  {
    if n == 0 then 0 else Sent(steps, n - 1) + if steps[n - 1].Exported? then steps[n - 1].n else 0
  }

  /** In every run every sampled span that ended is on its way, exported or counted as dropped. */
  lemma {:induction false} EverySpanIsAccountedFor(l: Limits, xs: seq<State>, steps: seq<Step>, n: nat)
    requires IsRun(l, xs, steps) && n <= |steps|
    ensures |xs| == |steps| + 1
    ensures Ended(steps, n) == |OnTheirWay(xs[n])| + Sent(steps, n) + xs[n].c.dropped
  {
    if n > 0 {
      EverySpanIsAccountedFor(l, xs, steps, n - 1);
      BudgetIsExact(l, xs, steps, n);
      assert steps[n - 1] == steps[n - 1];
      hide SpanSize, Total, IsRun, Sent, Ended, Ok;
      SpansMove(l, xs[n - 1], steps[n - 1]);
      CountOne(steps, n);
      assert xs[n].lost == 0 && xs[n - 1].lost == 0 by { NoneLost(l, xs, steps, n); }
    }
  }

  lemma NoneLost(l: Limits, xs: seq<State>, steps: seq<Step>, n: nat)
    requires IsRun(l, xs, steps) && 0 < n <= |steps|
    ensures |xs| == |steps| + 1 && xs[n].lost == 0 && xs[n - 1].lost == 0
  {
    hide Next, Enabled, Total;
    BudgetIsExact(l, xs, steps, n);
    BudgetIsExact(l, xs, steps, n - 1);
  }

  lemma CountOne(steps: seq<Step>, n: nat)
    requires 0 < n <= |steps|
    ensures Ended(steps, n) == Ended(steps, n - 1) + if steps[n - 1].Ends? && steps[n - 1].s.sampled then 1 else 0
    ensures Sent(steps, n) == Sent(steps, n - 1) + if steps[n - 1].Exported? then steps[n - 1].n else 0
  {
  }

  lemma SpansMove(l: Limits, x: State, st: Step)
    requires Enabled(x, st)
    ensures var y := Next(l, x, st);
      |OnTheirWay(y)| + y.c.dropped + y.lost + (if st.Exported? then st.n else 0) ==
      |OnTheirWay(x)| + x.c.dropped + x.lost + if st.Ends? && st.s.sampled then 1 else 0
  {
    hide SpanSize, Total;
  }

  // ---------------------------------------------------------------------------
  // The size of a span, in one sum
  // ---------------------------------------------------------------------------

  function AttributeSizes(attributes: seq<Attribute>): seq<nat> {
    seq(|attributes|, i requires 0 <= i < |attributes| => attributes[i].key + ValueSize(attributes[i].value))
  }

  function EventSizes(es: seq<SpanEvent>): seq<nat> {
    seq(|es|, i requires 0 <= i < |es| => es[i].name + Sum(AttributeSizes(es[i].attributes)))
  }

  lemma {:induction false} AttributesSum(attributes: seq<Attribute>)
    ensures AttributesSize(attributes) == Sum(AttributeSizes(attributes))
  {
    if attributes != [] {
      var n := |attributes| - 1;
      AttributesSum(attributes[..n]);
      assert AttributeSizes(attributes)[..n] == AttributeSizes(attributes[..n]);
    }
  }

  lemma {:induction false} EventsSum(es: seq<SpanEvent>)
    ensures EventsSize(es) == Sum(EventSizes(es))
  {
    if es != [] {
      var n := |es| - 1;
      EventsSum(es[..n]);
      AttributesSum(es[n].attributes);
      assert EventSizes(es)[..n] == EventSizes(es[..n]);
    }
  }

  /** A span counts 512 bytes, its name, the keys and values of its attributes, and the names, keys and
      values of its events. */
  lemma SizeIsTheSum(s: Span)
    ensures SpanSize(s) == 512 + s.name + Sum(AttributeSizes(s.attributes)) + Sum(EventSizes(s.events))
  {
    AttributesSum(s.attributes);
    EventsSum(s.events);
  }

  /** What a value holds, element by element: one byte for a character or a truth value, eight for a number. */
  function Widths(v: Value): seq<nat> {
    match v
    case Str(len) => seq(len, _ => 1)
    case Strs(lens) => lens
    case Bools(n) => seq(n, _ => 1)
    case Ints(n) => seq(n, _ => 8)
    case Floats(n) => seq(n, _ => 8)
    case Other => [8]
  }

  lemma {:induction false} SumOfEqual(s: seq<nat>, width: nat)
    requires forall i :: 0 <= i < |s| ==> s[i] == width
    ensures Sum(s) == width * |s|
  {
    if s != [] { SumOfEqual(s[..|s| - 1], width); }
  }

  lemma ValueIsTheSum(v: Value)
    ensures ValueSize(v) == Sum(Widths(v))
  {
    match v
    case Str(len) => SumOfEqual(Widths(v), 1);
    case Strs(lens) =>
    case Bools(n) => SumOfEqual(Widths(v), 1);
    case Ints(n) => SumOfEqual(Widths(v), 8);
    case Floats(n) => SumOfEqual(Widths(v), 8);
    case Other => SumOfEqual(Widths(v), 8);
  }
}
