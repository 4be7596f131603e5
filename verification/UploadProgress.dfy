/** The multipart request of the browser: form fields, and the byte range of every content. */
module BrowserRequest {
  import opened Outcomes
  import opened FieldNames
  import Multipart

  datatype Range = Range(name: Option<seq<Octet>>, start: nat, end: nat)

  /** A file field, and the empty file of a directory; their names are percent-encoded paths. */
  datatype Field = FileField(content: string, name: Option<string>) | DirectoryField(path: string)

  datatype Request = Request(total: nat, parts: seq<Range>, form: map<string, Field>)

  /** An entry with neither content nor path cannot be sent. */
  predicate Sendable(c: Candidate) {
    c.content.Some? || c.path.Some?
  }

  function FieldOf(c: Candidate): Field
    requires Sendable(c)
  {
    var name := if c.path.Some? then Some(Multipart.EncodeComponent(c.path.value)) else None;
    if c.content.Some? then FileField(c.content.value, name) else DirectoryField(name.value)
  }

  /** The entries that have content, in order. */
  function Files(cs: seq<Candidate>): seq<Candidate> {
    if cs == [] then []
    else Files(cs[..|cs| - 1]) + if cs[|cs| - 1].content.Some? then [cs[|cs| - 1]] else []
  }

  /** Ranges that follow one another without gap or overlap from 0 to the total. */
  ghost predicate Contiguous(parts: seq<Range>, total: nat) {
    && (forall i | 0 <= i < |parts| :: parts[i].start <= parts[i].end)
    && (forall i | 0 < i < |parts| :: parts[i].start == parts[i - 1].end)
    && if parts == [] then total == 0 else parts[0].start == 0 && parts[|parts| - 1].end == total
  }

  /** One range for each content, of its size and under its path. */
  ghost predicate RangesOf(parts: seq<Range>, files: seq<Candidate>) {
    && |parts| == |files|
    && forall i | 0 <= i < |parts| ::
         files[i].content.Some? && parts[i].end - parts[i].start == |files[i].content.value| && parts[i].name == files[i].path
  }

  /** The names of the entries, in order. */
  function Names(cs: seq<Candidate>): (names: seq<string>)
    ensures |names| == |cs| && forall i | 0 <= i < |cs| :: names[i] == FieldName(cs[i], i)
  {
    seq(|cs|, i requires 0 <= i < |cs| => FieldName(cs[i], i))
  }

  lemma NewName(cs: seq<Candidate>, c: Candidate)
    ensures Names(cs + [c]) == Names(cs) + [FieldName(c, |cs|)]
    ensures FieldName(c, |cs|) !in Names(cs)
  {
    forall i | 0 <= i < |cs| ensures Names(cs)[i] != FieldName(c, |cs|) {
      NamesDistinct(cs[i], i, c, |cs|);
    }
  }

  /** The form has these names and no others, each for the entry at its place. */
  ghost predicate FormOf(form: map<string, Field>, names: seq<string>, cs: seq<Candidate>) {
    && |form| == |names| == |cs|
    && (forall name | name in form :: name in names)
    && (forall i | 0 <= i < |cs| :: Sendable(cs[i]) && names[i] in form && form[names[i]] == FieldOf(cs[i]))
  }

  lemma FormAppend(form: map<string, Field>, names: seq<string>, cs: seq<Candidate>, name: string, c: Candidate)
    requires FormOf(form, names, cs) && Sendable(c) && name !in names
    ensures FormOf(form[name := FieldOf(c)], names + [name], cs + [c])
  {
    assert name !in form;
  }

  /** The entries with content are picked one by one. */
  lemma {:induction false} FilesAre(a: seq<Candidate>, b: seq<Candidate>, c: Candidate)
    ensures Files(a + b) == Files(a) + Files(b)
    ensures Files([c]) == if c.content.Some? then [c] else []
  {
    assert [c][..0] == [];
    if b == [] {
      assert a + b == a;
    } else {
      FilesAre(a, b[..|b| - 1], c);
      assert (a + b)[..|a + b| - 1] == a + b[..|b| - 1];
    }
  }

  lemma FilesAppend(cs: seq<Candidate>, c: Candidate)
    ensures Files(cs + [c]) == Files(cs) + if c.content.Some? then [c] else []
  {
    assert (cs + [c])[..|cs|] == cs;
  }

  function RangesWith(parts: seq<Range>, total: nat, c: Candidate): seq<Range> {
    if c.content.None? then parts else parts + [Range(c.path, total, total + |c.content.value|)]
  }

  function TotalWith(total: nat, c: Candidate): nat {
    if c.content.None? then total else total + |c.content.value|
  }

  lemma RangesAppend(parts: seq<Range>, total: nat, cs: seq<Candidate>, c: Candidate)
    requires Contiguous(parts, total) && RangesOf(parts, Files(cs))
    ensures Contiguous(RangesWith(parts, total, c), TotalWith(total, c))
    ensures RangesOf(RangesWith(parts, total, c), Files(cs + [c]))
  {
    FilesAppend(cs, c);
  }

  /** What the request loop has built from these entries: ranges that tile the total, and a field of its own for each. */
  ghost predicate Built(parts: seq<Range>, total: nat, form: map<string, Field>, cs: seq<Candidate>) {
    Contiguous(parts, total) && RangesOf(parts, Files(cs)) && FormOf(form, Names(cs), cs)
  }

  /** One turn of the request loop. */
  method AddEntry(parts: seq<Range>, total: nat, form: map<string, Field>, ghost sent: seq<Candidate>, c: Candidate, index: nat)
    returns (parts': seq<Range>, total': nat, form': map<string, Field>)
    requires Built(parts, total, form, sent) && |sent| == index && Sendable(c)
    ensures Built(parts', total', form', sent + [c])
  {
    var fieldName := MakeFieldName(c, index);
    NewName(sent, c);
    FormAppend(form, Names(sent), sent, fieldName, c);
    RangesAppend(parts, total, sent, c);
    form' := form[fieldName := FieldOf(c)];
    parts', total' := parts, total;
    if c.content.Some? {
      var end := total + |c.content.value|;
      parts' := parts + [Range(c.path, total, end)];
      total' := end;
    }
  }

  /** The field sent for an entry has the bytes of its content, if any, and a name that decodes to its path. */
  ghost predicate Carries(f: Field, c: Candidate) {
    match c.content
    case Some(bytes) =>
      && f.FileField? && f.content == bytes && (f.name.Some? <==> c.path.Some?)
      && (f.name.Some? ==> Multipart.DecodeComponent(f.name.value) == c.path.value)
    case None => f.DirectoryField? && c.path.Some? && Multipart.DecodeComponent(f.path) == c.path.value
  }

  lemma FieldCarries(c: Candidate)
    requires Sendable(c)
    ensures Carries(FieldOf(c), c)
  {
    Multipart.ComponentRoundTrip(c.path.GetOr([]));
  }

  /** Every entry has its field. */
  ghost predicate HasFields(form: map<string, Field>, cs: seq<Candidate>) {
    forall i | 0 <= i < |cs| :: HasField(form, FieldName(cs[i], i), cs[i])
  }

  ghost predicate HasField(form: map<string, Field>, name: string, c: Candidate) {
    name in form && Carries(form[name], c)
  }

  /** Every field is that of some entry. */
  ghost predicate NoOther(form: map<string, Field>, cs: seq<Candidate>) {
    forall name | name in form :: exists i :: 0 <= i < |cs| && name == FieldName(cs[i], i)
  }

  lemma FormHas(form: map<string, Field>, cs: seq<Candidate>, i: nat)
    requires FormOf(form, Names(cs), cs) && i < |cs|
    ensures HasField(form, Names(cs)[i], cs[i]) && Names(cs)[i] == FieldName(cs[i], i)
  {
    FieldCarries(cs[i]);
  }

  lemma FormCarries(form: map<string, Field>, cs: seq<Candidate>)
    requires FormOf(form, Names(cs), cs)
    ensures HasFields(form, cs) && NoOther(form, cs)
  {
    forall i | 0 <= i < |cs| ensures HasField(form, FieldName(cs[i], i), cs[i]) {
      FormHas(form, cs, i);
    }
    forall name | name in form ensures exists i :: 0 <= i < |cs| && name == FieldName(cs[i], i) {
      assert name in Names(cs);
      var i :| 0 <= i < |cs| && Names(cs)[i] == name;
    }
  }

  ghost predicate Sent(sent: seq<Candidate>, source: seq<Candidate>, n: nat) {
    |sent| == n && sent <= source && forall c | c in sent :: Sendable(c)
  }

  lemma SentOne(sent: seq<Candidate>, source: seq<Candidate>, n: nat)
    requires n < |source| && Sent(sent, source, n) && Sendable(source[n])
    ensures Sent(sent + [source[n]], source, n + 1)
  {
  }

  /**
   The request loop: it fails exactly on an entry with neither content nor path; otherwise the
   ranges tile the total, and every entry has a form field of its own, with its content and path,
   and there are no other fields.
   */
  method MultipartRequest(source: seq<Candidate>) returns (r: Option<Request>)
    ensures r.Some? <==> forall i | 0 <= i < |source| :: Sendable(source[i])
    ensures r.Some? ==> Built(r.value.parts, r.value.total, r.value.form, source)
    ensures r.Some? ==> HasFields(r.value.form, source) && NoOther(r.value.form, source)
  {
    var parts: seq<Range> := [];
    var form: map<string, Field> := map[];
    var index: nat, total: nat := 0, 0;
    ghost var sent: seq<Candidate> := [];
    while index < |source|
      invariant Sent(sent, source, index)
      invariant Built(parts, total, form, sent)
    {
      if !Sendable(source[index]) {
        return None;
      }
      parts, total, form := AddEntry(parts, total, form, sent, source[index], index);
      SentOne(sent, source, index);
      sent := sent + [source[index]];
      index := index + 1;
    }
    assert sent == source;
    FormCarries(form, source);
    return Some(Request(total, parts, form));
  }
}

/** Progress reports interpolated from upload events over the ranges of a request. */
module UploadProgress {
  import opened Outcomes
  import opened BrowserRequest

  datatype Report = Report(part: nat, bytes: int)

  datatype State = State(index: nat, reports: seq<Report>)

  datatype Event = Event(loaded: nat, total: nat)

  /** How the result of a quotient or a product is rounded to a floating-point number. */
  type Rounding = real -> real

  ghost predicate InOrder(rnd: Rounding, x: real, y: real) {
    x <= y ==> rnd(x) <= rnd(y)
  }

  /** What rounding to the nearest number does: it is monotone and leaves 0, 1 and the size, which are such numbers. */
  ghost predicate Rounds(rnd: Rounding, size: nat) {
    && (forall x, y :: InOrder(rnd, x, y))
    && rnd(0.0) == 0.0 && rnd(1.0) == 1.0 && rnd(size as real) == size as real
  }

  /** `Math.floor(loaded / total * size)`; a total of 0 gives NaN or an infinity, which is below no end. */
  datatype Position = At(byte: int) | Unbounded

  /** The position of a fraction, before it is cut off. */
  function Scaled(rnd: Rounding, size: nat, x: real): real {
    rnd(Product(rnd(x), size))
  }

  function Product(x: real, size: nat): real {
    x * size as real
  }

  function Fraction(ev: Event): real
    requires ev.total > 0
  {
    ev.loaded as real / ev.total as real
  }

  function PositionOf(rnd: Rounding, size: nat, ev: Event): Position {
    if ev.total == 0 then Unbounded else At(Scaled(rnd, size, Fraction(ev)).Floor)
  }

  /** The position of an event: loaded over total, rounded, times the size, rounded again and cut off; none without a total. */
  lemma PositionIs(rnd: Rounding, size: nat, ev: Event, quotient: real, product: real)
    requires ev.total > 0 && quotient == ev.loaded as real / ev.total as real && product == rnd(quotient) * size as real
    ensures PositionOf(rnd, size, ev) == At(rnd(product).Floor)
    ensures PositionOf(rnd, size, ev.(total := 0)) == Unbounded
  {
    assert Fraction(ev) == quotient;
    assert Product(rnd(quotient), size) == product;
  }

  predicate Below(p: Position, end: nat) {
    p.At? && p.byte < end
  }

  function Length(parts: seq<Range>, i: nat): int
    requires i < |parts|
  {
    parts[i].end - parts[i].start
  }

  function Advance(parts: seq<Range>, s: State, p: Position): State
    decreases |parts| - s.index
  {
    if s.index >= |parts| then s
    else if Below(p, parts[s.index].end) then s.(reports := s.reports + [Report(s.index, p.byte - parts[s.index].start)])
    else Advance(parts, State(s.index + 1, s.reports + [Report(s.index, Length(parts, s.index))]), p)
  }

  function Run(parts: seq<Range>, ps: seq<Position>): State {
    if ps == [] then State(0, []) else Advance(parts, Run(parts, ps[..|ps| - 1]), ps[|ps| - 1])
  }

  function Positions(rnd: Rounding, size: nat, evs: seq<Event>): (ps: seq<Position>)
    ensures |ps| == |evs| && forall i | 0 <= i < |evs| :: ps[i] == PositionOf(rnd, size, evs[i])
  {
    seq(|evs|, i requires 0 <= i < |evs| => PositionOf(rnd, size, evs[i]))
  }

  // ---------------------------------------------------------------- what has been reported

  /** The latest report for a part, 0 when there is none. */
  function Latest(reports: seq<Report>, i: nat): int {
    if reports == [] then 0
    else
      var last := reports[|reports| - 1];
      if last.part == i then last.bytes else Latest(reports[..|reports| - 1], i)
  }

  /** The sum of the latest reports of the first n parts. */
  function Reported(reports: seq<Report>, n: nat): int {
    if n == 0 then 0 else Reported(reports, n - 1) + Latest(reports, n - 1)
  }

  /** How often the full length of a part has been reported. */
  function Completions(parts: seq<Range>, reports: seq<Report>, i: nat): nat
    requires i < |parts|
  {
    if reports == [] then 0
    else
      Completions(parts, reports[..|reports| - 1], i) +
      if reports[|reports| - 1] == Report(i, Length(parts, i)) then 1 else 0
  }

  /** Parts before the index are complete, each reported in full once; parts behind it are untouched; p is not before the index. */
  ghost predicate Inv(parts: seq<Range>, s: State, p: int) {
    && s.index <= |parts|
    && (forall i | 0 <= i < s.index :: Latest(s.reports, i) == Length(parts, i))
    && (forall i | s.index < i < |parts| :: Latest(s.reports, i) == 0)
    && (forall i | 0 <= i < |parts| :: Completions(parts, s.reports, i) == if i < s.index then 1 else 0)
    && (forall r | r in s.reports :: r.part < |parts| && 0 <= r.bytes <= Length(parts, r.part))
    && (s.index < |parts| ==> parts[s.index].start <= p)
    && (s.index > 0 ==> parts[s.index - 1].end <= p)
  }

  lemma Append(parts: seq<Range>, reports: seq<Report>, r: Report)
    ensures forall i: nat :: Latest(reports + [r], i) == if i == r.part then r.bytes else Latest(reports, i)
    ensures forall i | 0 <= i < |parts| ::
              Completions(parts, reports + [r], i) == Completions(parts, reports, i) + if r == Report(i, Length(parts, i)) then 1 else 0
  {
    assert (reports + [r])[..|reports|] == reports;
  }

  lemma EndsInside(parts: seq<Range>, total: nat, i: nat)
    requires Contiguous(parts, total) && i < |parts|
    ensures parts[i].end <= total
    decreases |parts| - i
  {
    if i + 1 < |parts| {
      EndsInside(parts, total, i + 1);
      assert parts[i + 1].start == parts[i].end;
    }
  }

  /** The number a position stands for: beyond every end is at least the total. */
  function Reached(p: Position, total: nat): int {
    if p.At? then p.byte else total
  }

  lemma ReportHere(parts: seq<Range>, s: State, p: int, before: int)
    requires Inv(parts, s, before) && s.index < |parts| && before <= p < parts[s.index].end
    ensures Inv(parts, s.(reports := s.reports + [Report(s.index, p - parts[s.index].start)]), p)
  {
    Append(parts, s.reports, Report(s.index, p - parts[s.index].start));
  }

  lemma CompleteHere(parts: seq<Range>, total: nat, s: State, p: int, before: int)
    requires Contiguous(parts, total) && Inv(parts, s, before) && s.index < |parts| && before <= p && parts[s.index].end <= p
    ensures Inv(parts, State(s.index + 1, s.reports + [Report(s.index, Length(parts, s.index))]), p)
  {
    Append(parts, s.reports, Report(s.index, Length(parts, s.index)));
    assert s.index + 1 < |parts| ==> parts[s.index + 1].start == parts[s.index].end;
  }

  /** One event: the loop ends on the part that holds the position, or behind all parts. */
  lemma {:induction false} AdvanceInv(parts: seq<Range>, total: nat, s: State, p: Position, before: int)
    requires Contiguous(parts, total) && Inv(parts, s, before) && before <= Reached(p, total)
    ensures var s' := Advance(parts, s, p);
            && Inv(parts, s', Reached(p, total))
            && |s'.reports| - s'.index <= |s.reports| - s.index + 1
            && Here(parts, s', p)
    decreases |parts| - s.index
  {
    if s.index < |parts| {
      var i := s.index;
      if Below(p, parts[i].end) {
        ReportHere(parts, s, p.byte, before);
      } else {
        var next := State(i + 1, s.reports + [Report(i, Length(parts, i))]);
        EndsInside(parts, total, i);
        CompleteHere(parts, total, s, Reached(p, total), before);
        AdvanceInv(parts, total, next, p, Reached(p, total));
      }
    }
  }

  /** Unless all parts are complete, the position lies in the part at the index and is what was last reported for it. */
  ghost predicate Here(parts: seq<Range>, s: State, p: Position) {
    s.index < |parts| ==> Below(p, parts[s.index].end) && Latest(s.reports, s.index) == p.byte - parts[s.index].start
  }

  // ---------------------------------------------------------------- main results

  /** Non-decreasing fractions between 0 and 1. */
  ghost predicate Monotone(evs: seq<Event>) {
    && (forall i | 0 <= i < |evs| :: evs[i].total > 0 && evs[i].loaded <= evs[i].total)
    && (forall i | 0 < i < |evs| ::
          Fraction(evs[i - 1]) <= Fraction(evs[i]))
  }

  ghost predicate Rising(ps: seq<Position>, size: nat) {
    && (forall i | 0 <= i < |ps| :: ps[i].At? && 0 <= ps[i].byte <= size)
    && (forall i | 0 < i < |ps| :: ps[i - 1].byte <= ps[i].byte)
  }

  lemma Scale(x: real, y: real, size: nat)
    requires 0.0 <= x <= y <= 1.0
    ensures 0.0 <= Product(x, size) <= Product(y, size) <= size as real
  {
  }

  lemma Quotient(x: real, y: real)
    requires 0.0 <= x <= y && 0.0 < y
    ensures 0.0 <= x / y <= 1.0
  {
  }

  lemma SelfQuotient(x: real)
    requires 0.0 < x
    ensures x / x == 1.0
  {
  }

  lemma FractionInside(ev: Event)
    requires 0 < ev.total && ev.loaded <= ev.total
    ensures 0.0 <= Fraction(ev) <= 1.0
    ensures ev.loaded == ev.total ==> Fraction(ev) == 1.0
  {
    Quotient(ev.loaded as real, ev.total as real);
    SelfQuotient(ev.total as real);
  }

  lemma RoundedWithin(rnd: Rounding, size: nat, x: real, y: real, top: real)
    requires Rounds(rnd, size) && rnd(top) == top && 0.0 <= x <= y <= top
    ensures 0.0 <= rnd(x) <= rnd(y) <= top
  {
    assert InOrder(rnd, 0.0, x) && InOrder(rnd, x, y) && InOrder(rnd, y, top);
  }

  lemma ScaledRises(rnd: Rounding, size: nat, x: real, y: real)
    requires Rounds(rnd, size) && 0.0 <= x <= y <= 1.0
    ensures 0.0 <= Scaled(rnd, size, x) <= Scaled(rnd, size, y) <= size as real
  {
    RoundedWithin(rnd, size, x, y, 1.0);
    Scale(rnd(x), rnd(y), size);
    RoundedWithin(rnd, size, Product(rnd(x), size), Product(rnd(y), size), size as real);
  }

  lemma ScaledAll(rnd: Rounding, size: nat)
    requires Rounds(rnd, size)
    ensures Scaled(rnd, size, 1.0) == size as real
  {
    assert Product(1.0, size) == size as real;
  }

  lemma FloorRises(x: real, y: real)
    requires x <= y
    ensures x.Floor <= y.Floor
  {
  }

  lemma PositionInside(rnd: Rounding, size: nat, ev: Event)
    requires Rounds(rnd, size) && 0 < ev.total && ev.loaded <= ev.total
    ensures var p := PositionOf(rnd, size, ev); p.At? && 0 <= p.byte <= size && (ev.loaded == ev.total ==> p.byte == size)
  {
    var x := Fraction(ev);
    FractionInside(ev);
    ScaledRises(rnd, size, x, x);
    FloorRises(0.0, Scaled(rnd, size, x));
    FloorRises(Scaled(rnd, size, x), size as real);
    ScaledAll(rnd, size);
  }

  lemma PositionRises(rnd: Rounding, size: nat, a: Event, b: Event)
    requires Rounds(rnd, size) && 0 < a.total && a.loaded <= a.total && 0 < b.total && b.loaded <= b.total
    requires Fraction(a) <= Fraction(b)
    ensures PositionOf(rnd, size, a).byte <= PositionOf(rnd, size, b).byte
  {
    FractionInside(a);
    FractionInside(b);
    ScaledRises(rnd, size, Fraction(a), Fraction(b));
    FloorRises(Scaled(rnd, size, Fraction(a)), Scaled(rnd, size, Fraction(b)));
  }

  lemma PositionsRise(rnd: Rounding, size: nat, evs: seq<Event>)
    requires Rounds(rnd, size) && Monotone(evs)
    ensures Rising(Positions(rnd, size, evs), size)
    ensures forall i | 0 <= i < |evs| && evs[i].loaded == evs[i].total :: Positions(rnd, size, evs)[i] == At(size)
  {
    forall i | 0 <= i < |evs|
      ensures var p := Positions(rnd, size, evs)[i]; p.At? && 0 <= p.byte <= size && (evs[i].loaded == evs[i].total ==> p == At(size))
    {
      PositionInside(rnd, size, evs[i]);
    }
    forall i | 0 < i < |evs| ensures Positions(rnd, size, evs)[i - 1].byte <= Positions(rnd, size, evs)[i].byte {
      PositionRises(rnd, size, evs[i - 1], evs[i]);
    }
  }

  lemma {:induction false} RunInv(size: nat, parts: seq<Range>, ps: seq<Position>)
    requires Contiguous(parts, size) && Rising(ps, size)
    ensures var s := Run(parts, ps);
            && Inv(parts, s, if ps == [] then 0 else ps[|ps| - 1].byte)
            && |s.reports| <= |ps| + s.index
            && (ps != [] ==> Here(parts, s, ps[|ps| - 1]))
  {
    if ps != [] {
      var n := |ps| - 1;
      RunInv(size, parts, ps[..n]);
      AdvanceInv(parts, size, Run(parts, ps[..n]), ps[n], if n == 0 then 0 else ps[n - 1].byte);
    }
  }

  lemma {:induction false} CompletePrefix(parts: seq<Range>, total: nat, reports: seq<Report>, n: nat)
    requires Contiguous(parts, total) && n <= |parts|
    requires forall i | 0 <= i < n :: Latest(reports, i) == Length(parts, i)
    ensures Reported(reports, n) == if n == 0 then 0 else parts[n - 1].end
  {
    if n > 0 {
      CompletePrefix(parts, total, reports, n - 1);
    }
  }

  lemma {:induction false} NothingBehind(reports: seq<Report>, n: nat, m: nat)
    requires n <= m && forall i | n <= i < m :: Latest(reports, i) == 0
    ensures Reported(reports, m) == Reported(reports, n)
    decreases m
  {
    if n < m {
      NothingBehind(reports, n, m - 1);
    }
  }

  lemma SumHere(size: nat, parts: seq<Range>, s: State, p: int)
    requires Contiguous(parts, size) && Inv(parts, s, p) && Here(parts, s, At(p)) && 0 <= p <= size
    ensures Reported(s.reports, |parts|) == p
  {
    var n := s.index;
    CompletePrefix(parts, size, s.reports, n);
    if n < |parts| {
      NothingBehind(s.reports, n + 1, |parts|);
      assert n > 0 ==> parts[n].start == parts[n - 1].end;
    }
  }

  /**
   After any upload events with non-decreasing fractions, and however quotient and product are
   rounded: the latest reports of all parts sum up to exactly floor(loaded / total * size) as
   computed, every report lies between 0 and the length of
   its part, and all parts before the index are complete.
   */
  lemma {:induction false} ProgressAddsUp(rnd: Rounding, size: nat, parts: seq<Range>, evs: seq<Event>)
    requires Rounds(rnd, size) && Contiguous(parts, size) && Monotone(evs) && evs != []
    ensures var s := Run(parts, Positions(rnd, size, evs));
            && At(Reported(s.reports, |parts|)) == PositionOf(rnd, size, evs[|evs| - 1])
            && (forall r | r in s.reports :: r.part < |parts| && 0 <= r.bytes <= Length(parts, r.part))
            && s.index <= |parts| && (forall i | 0 <= i < s.index :: Latest(s.reports, i) == Length(parts, i))
  {
    var ps := Positions(rnd, size, evs);
    PositionsRise(rnd, size, evs);
    RunInv(size, parts, ps);
    SumHere(size, parts, Run(parts, ps), ps[|ps| - 1].byte);
  }

  /**
   Over k such events there are at most k + count callbacks; the full length of a part is
   reported at most once, and exactly once for every part, also an empty one, when everything
   is loaded.
   */
  lemma {:induction false} CallbacksBounded(rnd: Rounding, size: nat, parts: seq<Range>, evs: seq<Event>)
    requires Rounds(rnd, size) && Contiguous(parts, size) && Monotone(evs)
    ensures var s := Run(parts, Positions(rnd, size, evs));
            && |s.reports| <= |evs| + |parts|
            && (forall i | 0 <= i < |parts| :: Completions(parts, s.reports, i) <= 1)
            && (evs != [] && evs[|evs| - 1].loaded == evs[|evs| - 1].total ==>
                  forall i | 0 <= i < |parts| :: Completions(parts, s.reports, i) == 1)
  {
    var ps := Positions(rnd, size, evs);
    PositionsRise(rnd, size, evs);
    RunInv(size, parts, ps);
    var s := Run(parts, ps);
    if s.index < |parts| {
      EndsInside(parts, size, s.index);
    }
  }

  /** An event without a total completes every part at once, whatever was loaded. */
  lemma {:induction false} NoTotalCompletes(rnd: Rounding, size: nat, parts: seq<Range>, evs: seq<Event>, loaded: nat)
    requires Rounds(rnd, size) && Contiguous(parts, size) && Monotone(evs)
    ensures var s := Advance(parts, Run(parts, Positions(rnd, size, evs)), PositionOf(rnd, size, Event(loaded, 0)));
            s.index == |parts| && forall i | 0 <= i < |parts| :: Completions(parts, s.reports, i) == 1
  {
    var ps := Positions(rnd, size, evs);
    PositionsRise(rnd, size, evs);
    RunInv(size, parts, ps);
    AdvanceInv(parts, size, Run(parts, ps), Unbounded, if ps == [] then 0 else ps[|ps| - 1].byte);
  }

  // ---------------------------------------------------------------- the handler

  /** The closure `createOnUploadProgress` returns: its captured index, and the callbacks it has made. */
  class ProgressHandler {
    const rnd: Rounding
    const size: nat
    const parts: seq<Range>
    var index: nat
    var reports: seq<Report>

    ghost function Snapshot(): State
      reads this
    {
      State(index, reports)
    }

    constructor (rnd: Rounding, size: nat, parts: seq<Range>)
      ensures this.rnd == rnd && this.size == size && this.parts == parts && Snapshot() == Run(parts, [])
    {
      this.rnd, this.size, this.parts := rnd, size, parts;
      index, reports := 0, [];
    }

    method OnUploadProgress(ev: Event)
      modifies this
      ensures Snapshot() == Advance(parts, old(Snapshot()), PositionOf(rnd, size, ev))
    {
      var position := PositionOf(rnd, size, ev);
      while index < |parts|
        invariant Advance(parts, Snapshot(), position) == Advance(parts, old(Snapshot()), position)
        decreases |parts| - index
      {
        var part := parts[index];
        if Below(position, part.end) {
          reports := reports + [Report(index, position.byte - part.start)];
          return;
        }
        reports := reports + [Report(index, part.end - part.start)];
        index := index + 1;
      }
    }
  }
}
