/** Searching a text for a delimiter, and splitting at it. */
module Delimiters {
  import opened Outcomes

  /** Index of the first occurrence. */
  function Find(s: string, d: string): (r: Option<nat>)
    ensures r.Some? ==> r.value + |d| <= |s|
  {
    if d <= s then Some(0)
    else if s == "" then None
    else
      var r := Find(s[1..], d);
      if r.None? then None else Some(r.value + 1)
  }

  /** The index found is the first at which the rest of the text starts with the delimiter; none is found when there is none. */
  lemma {:induction false} FindFirst(s: string, d: string)
    ensures var r := Find(s, d);
            && (r.Some? ==> d <= s[r.value..] && forall j | 0 <= j < r.value :: !(d <= s[j..]))
            && (r.None? ==> forall j | 0 <= j <= |s| :: !(d <= s[j..]))
  {
    assert s[0..] == s;
    if !(d <= s) && s != "" {
      FindFirst(s[1..], d);
      assert forall j | 1 <= j <= |s| :: s[j..] == s[1..][j - 1..];
    }
  }

  predicate Occurs(d: string, s: string) {
    Find(s, d).Some?
  }

  function SplitOn(s: string, d: string): (pieces: seq<string>)
    requires d != ""
    ensures |pieces| > 0
    decreases |s|
  {
    var r := Find(s, d);
    if r.None? then [s] else [s[..r.value]] + SplitOn(s[r.value + |d|..], d)
  }

  lemma OccursAt(d: string, s: string, j: nat)
    requires j <= |s| && d <= s[j..]
    ensures Occurs(d, s)
  {
    FindFirst(s, d);
  }

  /** A delimiter whose first character does not come again in it cannot overlap itself. */
  ghost predicate NoSelfOverlap(d: string) {
    d != "" && d[0] !in d[1..]
  }

  lemma NotBefore(p: string, d: string, rest: string, k: nat)
    requires NoSelfOverlap(d) && !Occurs(d, p) && k < |p|
    ensures !(d <= (p + d + rest)[k..])
  {
    FindFirst(p, d);
    var s := p + d + rest;
    if k + |d| <= |p| {
      assert s[k..][..|d|] == p[k..][..|d|];
    } else {
      var t := |p| - k;
      assert s[k..][t] == s[|p|] == d[0];
      assert d[1..][t - 1] == d[t];
    }
  }

  lemma SplitFirst(p: string, d: string, rest: string)
    requires NoSelfOverlap(d) && !Occurs(d, p)
    ensures SplitOn(p + d + rest, d) == [p] + SplitOn(rest, d)
  {
    var s := p + d + rest;
    assert s[|p|..] == d + rest;
    forall k | 0 <= k < |p| ensures !(d <= s[k..]) {
      NotBefore(p, d, rest, k);
    }
    FindFirst(s, d);
    assert Find(s, d) == Some(|p|);
    assert s[..|p|] == p && s[|p| + |d|..] == rest;
  }

  lemma FreeBefore(s: string, d: string, k: nat)
    requires d != "" && k <= |s| && forall j | 0 <= j < k :: !(d <= s[j..])
    ensures !Occurs(d, s[..k])
  {
    FindFirst(s[..k], d);
    forall j | 0 <= j <= k ensures !(d <= s[..k][j..]) {
      assert s[..k][j..] == s[j..][..k - j];
    }
  }

  lemma {:induction false} PiecesFree(s: string, d: string)
    requires d != ""
    ensures forall p | p in SplitOn(s, d) :: !Occurs(d, p)
    decreases |s|
  {
    var r := Find(s, d);
    if r.Some? {
      FindFirst(s, d);
      FreeBefore(s, d, r.value);
      PiecesFree(s[r.value + |d|..], d);
    }
  }

  /** The delimiter is first found behind a text that lacks its first character. */
  lemma FindAfter(a: string, d: string, rest: string)
    requires d != "" && d[0] !in a
    ensures Find(a + d + rest, d) == Some(|a|)
  {
    var s := a + d + rest;
    FindFirst(s, d);
    assert s[|a|..] == d + rest;
    forall k | 0 <= k < |a| ensures !(d <= s[k..]) {
      assert s[k..][0] == a[k] && a[k] in a;
    }
  }

  /** Where the delimiter does not start in the first part, it occurs in the whole when it occurs in the second. */
  lemma OccursBehind(d: string, a: string, b: string)
    requires forall k | 0 <= k < |a| :: !(d <= (a + b)[k..])
    ensures Occurs(d, a + b) <==> Occurs(d, b)
  {
    var s := a + b;
    FindFirst(s, d);
    FindFirst(b, d);
    assert forall k | 0 <= k <= |b| :: s[|a| + k..] == b[k..];
    if Occurs(d, s) {
      OccursAt(d, b, Find(s, d).value - |a|);
    }
    if Occurs(d, b) {
      OccursAt(d, s, |a| + Find(b, d).value);
    }
  }
}

/** The names under which the parts of an upload are sent; they carry mode and mtime as a query. */
module FieldNames {
  import opened Outcomes
  import opened Delimiters
  import opened Digits

  datatype Mtime = Mtime(secs: int, nsecs: Option<int>)

  type Octet = c: char | c as int < 256

  /** An import candidate after normalisation; the path is its UTF-8 octets. */
  datatype Candidate = Candidate(path: Option<seq<Octet>>, mode: Option<nat>, mtime: Option<Mtime>, content: Option<string>)

  function JoinAmp(qs: seq<string>): string {
    if qs == [] then "" else if |qs| == 1 then qs[0] else qs[0] + "&" + JoinAmp(qs[1..])
  }

  function ModeQuery(c: Candidate): seq<string> {
    if c.mode.None? then [] else ["mode=" + ModeToString(Number(c.mode.value)).value]
  }

  function MtimeQuery(c: Candidate): seq<string> {
    if c.mtime.None? then []
    else ["mtime=" + IntToText(c.mtime.value.secs)] +
         if c.mtime.value.nsecs.None? then [] else ["mtime-nsecs=" + IntToText(c.mtime.value.nsecs.value)]
  }

  function Kind(c: Candidate): string {
    if c.content.Some? then "file" else "dir"
  }

  function Suffix(index: nat): string {
    if index > 0 then "-" + ToText(index, 10) else ""
  }

  function FieldName(c: Candidate, index: nat): string {
    var qs := ModeQuery(c) + MtimeQuery(c);
    Kind(c) + Suffix(index) + if qs == [] then "" else "?" + JoinAmp(qs)
  }

  /** The loop body up to the field name. */
  method MakeFieldName(c: Candidate, index: nat) returns (fieldName: string)
    ensures fieldName == FieldName(c, index)
  {
    var fileSuffix := "";
    if index > 0 {
      fileSuffix := "-" + ToText(index, 10);
    }
    fieldName := Kind(c) + fileSuffix;
    var qs: seq<string> := [];
    if c.mode.Some? {
      qs := qs + ["mode=" + ModeToString(Number(c.mode.value)).value];
    }
    if c.mtime.Some? {
      qs := qs + ["mtime=" + IntToText(c.mtime.value.secs)];
      if c.mtime.value.nsecs.Some? {
        qs := qs + ["mtime-nsecs=" + IntToText(c.mtime.value.nsecs.value)];
      }
    }
    assert qs == ModeQuery(c) + MtimeQuery(c);
    ghost var head := fieldName;
    assert head == Kind(c) + Suffix(index) == head + "";
    if qs != [] {
      fieldName := fieldName + ("?" + JoinAmp(qs));
    }
  }

  /** The parameters of a time, seconds and perhaps nanoseconds. */
  function MtimeText(t: Mtime): string {
    "mtime=" + IntToText(t.secs) + if t.nsecs.None? then "" else "&" + ("mtime-nsecs=" + IntToText(t.nsecs.value))
  }

  lemma JoinOne(a: string)
    ensures JoinAmp([a]) == a
  {
  }

  lemma JoinTwo(a: string, b: string)
    ensures JoinAmp([a] + [b]) == a + ("&" + b)
  {
    assert ([a] + [b])[1..] == [b];
    JoinOne(b);
  }

  lemma MtimeJoins(c: Candidate)
    requires c.mtime.Some?
    ensures JoinAmp(MtimeQuery(c)) == MtimeText(c.mtime.value)
  {
    var t := c.mtime.value;
    if t.nsecs.Some? {
      JoinTwo("mtime=" + IntToText(t.secs), "mtime-nsecs=" + IntToText(t.nsecs.value));
    } else {
      JoinOne("mtime=" + IntToText(t.secs));
      NothingAdded(["mtime=" + IntToText(t.secs)]);
      NothingAdded("mtime=" + IntToText(t.secs));
    }
  }

  lemma NothingAdded<T>(s: seq<T>)
    ensures s + [] == s
  {
  }

  // ---------------------------------------------------------------- reading a name back

  /** The text from the first of the marks on. */
  function From(name: string, marks: set<char>): string {
    if name == "" || name[0] in marks then name else From(name[1..], marks)
  }

  /** The index in a field name: the number after the dash, or 0. */
  function IndexOf(name: string): nat {
    var rest := From(name, {'-', '?'});
    if rest != "" && rest[0] == '-' then ParseInt(rest[1..], 10).GetOr(0) else 0
  }

  /** What the receiver parses as the mode. */
  function ModeOf(name: string): Option<nat> {
    var q := From(name, {'?'});
    if "?mode=" <= q then ParseInt(q[6..], 8) else None
  }

  lemma {:induction false} FromIs(a: string, q: string, marks: set<char>)
    requires (forall c | c in a :: c !in marks) && (q != "" ==> q[0] in marks)
    ensures From(a + q, marks) == q
  {
    if a == "" {
      assert a + q == q;
    } else {
      assert a[0] in a && (a + q)[1..] == a[1..] + q;
      FromIs(a[1..], q, marks);
    }
  }

  function QueryText(c: Candidate): (q: string)
    ensures q != "" ==> q[0] == '?'
  {
    var qs := ModeQuery(c) + MtimeQuery(c);
    if qs == [] then "" else "?" + JoinAmp(qs)
  }

  lemma NameParts(c: Candidate, index: nat)
    ensures FieldName(c, index) == Kind(c) + (Suffix(index) + QueryText(c)) == (Kind(c) + Suffix(index)) + QueryText(c)
  {
  }

  /** The wording of a name: kind, number, and the query. */
  lemma NameIs(c: Candidate, index: nat)
    ensures FieldName(c, index) ==
            (if c.content.Some? then "file" else "dir") + (if index == 0 then "" else "-" + ToText(index, 10)) + QueryText(c)
  {
    NameParts(c, index);
  }

  /** The query holds the parameters that are there: mode, seconds, nanoseconds. */
  lemma {:induction false} QueryIs(c: Candidate)
    ensures QueryText(c) ==
            match c.mode
            case None => if c.mtime.None? then "" else "?" + MtimeText(c.mtime.value)
            case Some(m) => "?" + ("mode=" + PadStart4(ToText(m, 8)) + if c.mtime.None? then "" else "&" + MtimeText(c.mtime.value))
  {
    if c.mtime.Some? {
      MtimeJoins(c);
    }
    if c.mode.Some? {
      JoinHead("mode=" + PadStart4(ToText(c.mode.value, 8)), MtimeQuery(c));
    } else {
      assert ModeQuery(c) + MtimeQuery(c) == MtimeQuery(c);
    }
  }

  lemma SuffixRead(index: nat, q: string)
    requires index > 0 && (q != "" ==> q[0] == '?')
    ensures ParseInt((Suffix(index) + q)[1..], 10) == Some(index)
  {
    assert (Suffix(index) + q)[1..] == ToText(index, 10) + q;
    TextDenotes(index, 10);
    ParsePrefix(ToText(index, 10), q, 10);
  }

  lemma {:induction false} IndexRecovered(c: Candidate, index: nat)
    ensures IndexOf(FieldName(c, index)) == index
  {
    var q := QueryText(c);
    NameParts(c, index);
    FromIs(Kind(c), Suffix(index) + q, {'-', '?'});
    if index > 0 {
      SuffixRead(index, q);
    }
  }

  /** Whatever the entries, two of them never get the same field name. */
  lemma {:induction false} NamesDistinct(c: Candidate, i: nat, c': Candidate, j: nat)
    requires i != j
    ensures FieldName(c, i) != FieldName(c', j)
  {
    IndexRecovered(c, i);
    IndexRecovered(c', j);
  }

  function AmpBefore(qs: seq<string>): string {
    if qs == [] then "" else "&" + JoinAmp(qs)
  }

  lemma JoinHead(q: string, qs: seq<string>)
    ensures JoinAmp([q] + qs) == q + AmpBefore(qs)
  {
    assert ([q] + qs)[1..] == qs;
  }

  lemma QueryStartsWith(q: string, text: string, rest: string)
    requires q == "?" + (("mode=" + text) + rest)
    ensures "?mode=" <= q && q[6..] == text + rest
  {
    assert q == "?mode=" + (text + rest);
  }

  lemma ModeRead(c: Candidate)
    requires c.mode.Some?
    ensures "?mode=" <= QueryText(c) && ParseInt(QueryText(c)[6..], 8) == c.mode
  {
    var text := ModeToString(Number(c.mode.value)).value;
    var rest := AmpBefore(MtimeQuery(c));
    JoinHead("mode=" + text, MtimeQuery(c));
    ModeRoundTrip(c.mode.value, rest);
    QueryStartsWith(QueryText(c), text, rest);
  }

  lemma NoModeRead(c: Candidate)
    requires c.mode.None?
    ensures !("?mode=" <= QueryText(c))
  {
    if c.mtime.Some? {
      var qs := MtimeQuery(c);
      assert ModeQuery(c) + qs == qs;
      assert qs[0][1] == 't';
      assert JoinAmp(qs)[1] == 't';
      assert QueryText(c)[2] == 't';
    }
  }

  /** The octal text in a field name is the mode of the entry. */
  lemma {:induction false} ModeRecovered(c: Candidate, index: nat)
    ensures ModeOf(FieldName(c, index)) == c.mode
  {
    NameParts(c, index);
    assert AllDigits(ToText(index, 10), 10);
    FromIs(Kind(c) + Suffix(index), QueryText(c), {'?'});
    if c.mode.Some? {
      ModeRead(c);
    } else {
      NoModeRead(c);
    }
  }

  // ---------------------------------------------------------------- reading the time back

  /** The value of a key in a query, taken apart at its ampersands. */
  function ValueIn(parts: seq<string>, key: string): Option<string> {
    if parts == [] then None
    else if key + "=" <= parts[0] then Some(parts[0][|key| + 1..])
    else ValueIn(parts[1..], key)
  }

  function Param(name: string, key: string): Option<string> {
    var q := From(name, {'?'});
    if q == "" then None else ValueIn(SplitOn(q[1..], "&"), key)
  }

  function NumberIn(text: Option<string>): Option<int> {
    if text.None? then None else ParseSigned(text.value)
  }

  /** What the receiver parses as the time. */
  function MtimeOf(name: string): Option<Mtime> {
    var secs := NumberIn(Param(name, "mtime"));
    if secs.None? then None else Some(Mtime(secs.value, NumberIn(Param(name, "mtime-nsecs"))))
  }

  lemma NoAmp(s: string)
    requires '&' !in s
    ensures !Occurs("&", s)
  {
    FindFirst(s, "&");
    forall j | 0 <= j <= |s| ensures !("&" <= s[j..]) {
      if j < |s| {
        assert s[j..][0] == s[j] && s[j] in s;
      }
    }
  }

  lemma {:induction false} AmpSplit(qs: seq<string>)
    requires qs != [] && forall q | q in qs :: '&' !in q
    ensures SplitOn(JoinAmp(qs), "&") == qs
  {
    assert qs[0] in qs;
    NoAmp(qs[0]);
    if |qs| > 1 {
      AmpSplit(qs[1..]);
      SplitFirst(qs[0], "&", JoinAmp(qs[1..]));
    }
  }

  lemma NoAmpBehind(key: string, text: string, base: nat)
    requires '&' !in key && AllDigits(text, base) && base <= 10
    ensures '&' !in key + text
  {
  }

  lemma IntNoAmp(key: string, n: int)
    requires '&' !in key
    ensures '&' !in key + IntToText(n)
  {
    var digits := ToText(if n < 0 then -n else n, 10);
    NoAmpBehind(if n < 0 then key + "-" else key, digits, 10);
    assert key + ("-" + digits) == (key + "-") + digits;
  }

  lemma QueryNoAmp(c: Candidate)
    ensures forall q | q in ModeQuery(c) + MtimeQuery(c) :: '&' !in q
  {
    if c.mode.Some? {
      PadDenotes(ToText(c.mode.value, 8));
      NoAmpBehind("mode=", ModeToString(Number(c.mode.value)).value, 8);
    }
    if c.mtime.Some? {
      IntNoAmp("mtime=", c.mtime.value.secs);
      IntNoAmp("mtime-nsecs=", c.mtime.value.nsecs.GetOr(0));
    }
  }

  lemma ParamIs(c: Candidate, index: nat, key: string)
    ensures Param(FieldName(c, index), key) == ValueIn(ModeQuery(c) + MtimeQuery(c), key)
  {
    var qs := ModeQuery(c) + MtimeQuery(c);
    NameParts(c, index);
    assert AllDigits(ToText(index, 10), 10);
    FromIs(Kind(c) + Suffix(index), QueryText(c), {'?'});
    if qs != [] {
      QueryNoAmp(c);
      AmpSplit(qs);
      assert ("?" + JoinAmp(qs))[1..] == JoinAmp(qs);
    }
  }

  lemma ValueHere(key: string, head: string, text: string, rest: seq<string>)
    requires head == key + "=" + text
    ensures ValueIn([head] + rest, key) == Some(text)
  {
  }

  lemma ValueBehind(key: string, head: string, rest: seq<string>, k: nat)
    requires k < |head| && k < |key + "="| && head[k] != (key + "=")[k]
    ensures ValueIn([head] + rest, key) == ValueIn(rest, key)
  {
    assert ([head] + rest)[1..] == rest;
  }

  lemma ModeSkipped(c: Candidate, key: string)
    requires 2 <= |key| && key[1] == 't'
    ensures ValueIn(ModeQuery(c) + MtimeQuery(c), key) == ValueIn(MtimeQuery(c), key)
  {
    if c.mode.Some? {
      ValueBehind(key, ModeQuery(c)[0], MtimeQuery(c), 1);
    } else {
      assert ModeQuery(c) + MtimeQuery(c) == MtimeQuery(c);
    }
  }

  lemma SecsRead(t: Mtime, rest: seq<string>)
    ensures NumberIn(ValueIn(["mtime=" + IntToText(t.secs)] + rest, "mtime")) == Some(t.secs)
  {
    assert "mtime=" == "mtime" + "=";
    ValueHere("mtime", "mtime=" + IntToText(t.secs), IntToText(t.secs), rest);
    IntRoundTrip(t.secs, "");
    assert IntToText(t.secs) + "" == IntToText(t.secs);
  }

  lemma NsecsRead(n: int)
    ensures NumberIn(ValueIn(["mtime-nsecs=" + IntToText(n)], "mtime-nsecs")) == Some(n)
  {
    assert "mtime-nsecs=" == "mtime-nsecs" + "=";
    ValueHere("mtime-nsecs", "mtime-nsecs=" + IntToText(n), IntToText(n), []);
    assert ["mtime-nsecs=" + IntToText(n)] + [] == ["mtime-nsecs=" + IntToText(n)];
    IntRoundTrip(n, "");
    assert IntToText(n) + "" == IntToText(n);
  }

  lemma SecsSkipped(secs: int, rest: seq<string>)
    ensures ValueIn(["mtime=" + IntToText(secs)] + rest, "mtime-nsecs") == ValueIn(rest, "mtime-nsecs")
  {
    ValueBehind("mtime-nsecs", "mtime=" + IntToText(secs), rest, 5);
  }

  /** The numbers in a field name are the time of the entry, seconds and nanoseconds, or their absence. */
  lemma {:induction false} MtimeRecovered(c: Candidate, index: nat)
    ensures MtimeOf(FieldName(c, index)) == c.mtime
  {
    ParamIs(c, index, "mtime");
    ParamIs(c, index, "mtime-nsecs");
    ModeSkipped(c, "mtime");
    ModeSkipped(c, "mtime-nsecs");
    if c.mtime.Some? {
      var t := c.mtime.value;
      var rest := MtimeQuery(c)[1..];
      assert MtimeQuery(c) == ["mtime=" + IntToText(t.secs)] + rest;
      SecsRead(t, rest);
      SecsSkipped(t.secs, rest);
      if t.nsecs.Some? {
        NsecsRead(t.nsecs.value);
      }
    }
  }

  // ---------------------------------------------------------------- no name breaks out of its quotes

  predicate Plain(s: string) {
    '"' !in s && '\r' !in s
  }

  lemma IntPlain(n: int)
    ensures Plain(IntToText(n))
  {
    assert AllDigits(ToText(if n < 0 then -n else n, 10), 10);
  }

  lemma {:induction false} JoinPlain(qs: seq<string>)
    requires forall s | s in qs :: Plain(s)
    ensures Plain(JoinAmp(qs))
  {
    if qs != [] {
      assert qs[0] in qs;
      JoinPlain(qs[1..]);
    }
  }

  lemma ModePlain(c: Candidate)
    ensures forall s | s in ModeQuery(c) :: Plain(s)
  {
    if c.mode.Some? {
      PadDenotes(ToText(c.mode.value, 8));
    }
  }

  lemma MtimePlain(c: Candidate)
    ensures forall s | s in MtimeQuery(c) :: Plain(s)
  {
    if c.mtime.Some? {
      IntPlain(c.mtime.value.secs);
      IntPlain(c.mtime.value.nsecs.GetOr(0));
    }
  }

  lemma {:induction false} NamePlain(c: Candidate, index: nat)
    ensures Plain(FieldName(c, index))
  {
    ModePlain(c);
    MtimePlain(c);
    JoinPlain(ModeQuery(c) + MtimeQuery(c));
    IntPlain(index);
    assert Plain(Suffix(index)) && Plain(Kind(c));
  }
}

/** The body of a multipart upload as it is printed, and as a receiver takes it apart. */
module Multipart {
  import opened Outcomes
  import opened Delimiters
  import opened FieldNames

  // ---------------------------------------------------------------- encodeURIComponent

  predicate Unreserved(c: char) {
    'A' <= c <= 'Z' || 'a' <= c <= 'z' || '0' <= c <= '9' || c in "-_.!~*'()"
  }

  const HEX := "0123456789ABCDEF"

  function HexValue(c: char): nat {
    if '0' <= c <= '9' then c as int - '0' as int else if 'A' <= c <= 'F' then c as int - 'A' as int + 10 else 0
  }

  function EncodeOctet(c: Octet): string {
    if Unreserved(c) then [c] else ['%', HEX[c as int / 16], HEX[c as int % 16]]
  }

  function EncodeComponent(s: seq<Octet>): string {
    if s == [] then "" else EncodeOctet(s[0]) + EncodeComponent(s[1..])
  }

  /** `decodeURIComponent`, as far as octets go. */
  function DecodeComponent(s: string): string {
    if s == "" then ""
    else if s[0] == '%' && |s| >= 3 then [(HexValue(s[1]) * 16 + HexValue(s[2])) as char] + DecodeComponent(s[3..])
    else [s[0]] + DecodeComponent(s[1..])
  }

  /** Octets are encoded one by one. */
  lemma {:induction false} EncodeEach(c: Octet, rest: seq<Octet>)
    ensures EncodeComponent([c] + rest) == EncodeOctet(c) + EncodeComponent(rest) && EncodeComponent([]) == ""
  {
    assert ([c] + rest)[1..] == rest;
  }

  /** Letters, digits and nine marks stay as they are. */
  lemma EncodeKeeps(c: Octet)
    ensures EncodeOctet(c) == [c] <==>
            || 'a' <= c <= 'z' || 'A' <= c <= 'Z' || '0' <= c <= '9'
            || c == '-' || c == '_' || c == '.' || c == '!' || c == '~' || c == '*' || c == '\'' || c == '(' || c == ')'
  {
  }

  /** Every other octet becomes a percent sign and its two hexadecimal digits. */
  lemma EncodeEscapes(c: Octet)
    requires EncodeOctet(c) != [c]
    ensures EncodeOctet(c) == ['%', "0123456789ABCDEF"[c as int / 16], "0123456789ABCDEF"[c as int % 16]]
  {
  }

  lemma HexRoundTrip(d: nat)
    requires d < 16
    ensures HexValue(HEX[d]) == d && HEX[d] != '"' && HEX[d] != '\r'
  {
  }

  lemma OctetRoundTrip(c: Octet, rest: string)
    ensures DecodeComponent(EncodeOctet(c) + rest) == [c] + DecodeComponent(rest) && Plain(EncodeOctet(c))
  {
    var e := EncodeOctet(c) + rest;
    if Unreserved(c) {
      assert e[1..] == rest;
    } else {
      HexRoundTrip(c as int / 16);
      HexRoundTrip(c as int % 16);
      assert e[3..] == rest;
      assert HexValue(e[1]) * 16 + HexValue(e[2]) == c as int;
    }
  }

  lemma {:induction false} ComponentRoundTrip(s: seq<Octet>)
    ensures DecodeComponent(EncodeComponent(s)) == s && Plain(EncodeComponent(s))
  {
    if s != [] {
      ComponentRoundTrip(s[1..]);
      OctetRoundTrip(s[0], EncodeComponent(s[1..]));
      assert s == [s[0]] + s[1..];
    }
  }

  // ---------------------------------------------------------------- printing

  const CRLF := "\r\n"

  /** The fixed texts of a part's headers. */
  datatype Wording = Wording(name: string, fileName: string, contentType: string, file: string, directory: string)

  const NAME := "Content-Disposition: form-data; name=\""
  const FILE_NAME := "; filename=\""
  const CONTENT_TYPE := "Content-Type: "
  const FILE := "application/octet-stream"
  const DIRECTORY := "application/x-directory"

  const HTTP := Wording(NAME, FILE_NAME, CONTENT_TYPE, FILE, DIRECTORY)

  function Delimiter(boundary: string): string {
    CRLF + ("--" + boundary)
  }

  function FileName(c: Candidate): string {
    EncodeComponent(c.path.GetOr([]))
  }

  function ContentType(w: Wording, c: Candidate): string {
    if c.content.Some? then w.file else w.directory
  }

  function Disposition(w: Wording, c: Candidate, index: nat): string {
    w.name + FieldName(c, index) + "\"" + w.fileName + FileName(c) + "\""
  }

  /** What stands between two delimiters. */
  function Piece(w: Wording, c: Candidate, index: nat): string {
    CRLF + Disposition(w, c, index) + CRLF + (w.contentType + ContentType(w, c)) + CRLF + (CRLF + c.content.GetOr(""))
  }

  function Pieces(w: Wording, cs: seq<Candidate>): (pieces: seq<string>)
    ensures |pieces| == |cs| && forall i | 0 <= i < |cs| :: pieces[i] == Piece(w, cs[i], i)
  {
    seq(|cs|, i requires 0 <= i < |cs| => Piece(w, cs[i], i))
  }

  /** The pieces from an index on, and the closing delimiter. */
  function Tail(pieces: seq<string>, index: nat, d: string): string
    requires index <= |pieces|
    decreases |pieces| - index
  {
    if index == |pieces| then "--" + CRLF
    else pieces[index] + d + Tail(pieces, index + 1, d)
  }

  /** The line break the first delimiter wants is the start of the body, unless there are no entries. */
  function Preamble(pieces: seq<string>): string {
    if pieces == [] then CRLF else ""
  }

  /** The body for which all pieces, each behind a delimiter, and the closing delimiter stand. */
  ghost predicate Frames(pieces: seq<string>, d: string, body: string) {
    CRLF + body == Preamble(pieces) + d + Tail(pieces, 0, d)
  }

  /** One turn of the loop: the line break before a later part, the boundary line, the headers and the content. */
  method PrintPart(w: Wording, c: Candidate, index: nat, boundary: string, body: string) returns (longer: string)
    ensures longer == body + (if index > 0 then CRLF else "") + ("--" + boundary) + Piece(w, c, index)
  {
    longer := body;
    if index > 0 {
      longer := longer + CRLF;
    } else {
      assert body + "" == body;
    }
    longer := longer + ("--" + boundary);
    longer := PrintPiece(w, c, index, longer);
  }

  /** The turn from the end of the boundary line on. */
  method PrintPiece(w: Wording, c: Candidate, index: nat, head: string) returns (longer: string)
    ensures longer == head + Piece(w, c, index)
  {
    longer := head;
    var fieldName := MakeFieldName(c, index);
    longer := longer + CRLF;
    longer := longer + (w.name + fieldName + "\"" + w.fileName + FileName(c) + "\"");
    longer := longer + CRLF;
    longer := longer + (w.contentType + (if c.content.Some? then w.file else w.directory));
    longer := longer + CRLF;
    longer := longer + CRLF;
    if c.content.Some? {
      longer := longer + c.content.value;
    }
    Regroup(head, CRLF, Disposition(w, c, index), w.contentType + ContentType(w, c), c.content.GetOr(""));
  }

  lemma Regroup(head: string, nl: string, a: string, b: string, content: string)
    ensures head + nl + a + nl + b + nl + nl + content == head + (nl + a + nl + b + nl + (nl + content))
    ensures head + "" == head
  {
  }

  /** The body after n parts: what is still to come completes it. */
  ghost predicate Printed(pieces: seq<string>, d: string, n: nat, body: string)
    requires n <= |pieces|
  {
    if n == 0 then body == ""
    else CRLF + body + d + Tail(pieces, n, d) == d + Tail(pieces, 0, d)
  }

  /** `streamFiles`, from a source that does not throw. */
  method StreamFiles(w: Wording, source: seq<Candidate>, boundary: string) returns (body: string)
    ensures Frames(Pieces(w, source), Delimiter(boundary), body)
  {
    body := "";
    var index := 0;
    ghost var pieces := Pieces(w, source);
    while index < |source|
      invariant 0 <= index <= |source|
      invariant Printed(pieces, Delimiter(boundary), index, body)
    {
      ghost var before := body;
      body := PrintPart(w, source[index], index, boundary, body);
      PrintedStep(pieces, "--" + boundary, index, before, body);
      index := index + 1;
    }
    ghost var printed := body;
    body := body + CRLF + ("--" + boundary) + ("--" + CRLF);
    PrintedAll(pieces, "--" + boundary, printed, body);
  }

  lemma PrintedStep(pieces: seq<string>, dash: string, n: nat, before: string, body: string)
    requires n < |pieces| && Printed(pieces, CRLF + dash, n, before)
    requires body == before + (if n > 0 then CRLF else "") + dash + pieces[n]
    ensures Printed(pieces, CRLF + dash, n + 1, body)
  {
    Regroup1(CRLF, dash, before, n > 0, pieces[n], Tail(pieces, n + 1, CRLF + dash));
    assert "" + (CRLF + dash) == CRLF + dash;
  }

  lemma PrintedAll(pieces: seq<string>, dash: string, printed: string, body: string)
    requires Printed(pieces, CRLF + dash, |pieces|, printed)
    requires body == printed + CRLF + dash + ("--" + CRLF)
    ensures Frames(pieces, CRLF + dash, body)
  {
    Regroup2(CRLF, dash, printed);
    assert CRLF + "" == CRLF;
    assert "" + (CRLF + dash) == CRLF + dash;
  }

  lemma Regroup1(nl: string, dash: string, before: string, later: bool, piece: string, tail: string)
    requires !later ==> before == ""
    ensures nl + (before + (if later then nl else "") + dash + piece) + (nl + dash) + tail
            == (if later then nl + before else "") + (nl + dash) + (piece + (nl + dash) + tail)
  {
  }

  lemma Regroup2(nl: string, dash: string, body: string)
    ensures nl + (body + nl + dash + ("--" + nl)) == nl + body + (nl + dash) + ("--" + nl)
  {
  }

  // ---------------------------------------------------------------- a receiver

  /** The pieces up to the one the closing delimiter starts; None if there is no closing delimiter. */
  function Enclosed(pieces: seq<string>): Option<seq<string>> {
    if pieces == [] then None
    else if "--" <= pieces[0] then Some([])
    else
      var rest := Enclosed(pieces[1..]);
      if rest.None? then None else Some([pieces[0]] + rest.value)
  }

  /**
   Section 5.1.1 of RFC 2046: a body starts as if after a line break, every delimiter is a line
   break, two hyphens and the boundary, what precedes the first one is ignored, and the one
   followed by two hyphens is the last.
   */
  function Unframe(body: string, boundary: string): Option<seq<string>> {
    Enclosed(SplitOn(CRLF + body, Delimiter(boundary))[1..])
  }

  /** White space is allowed behind a boundary on its line. */
  function SkipPadding(s: string): string {
    if s != "" && (s[0] == ' ' || s[0] == '\t') then SkipPadding(s[1..]) else s
  }

  datatype Part = Part(name: string, fileName: string, contentType: string, content: string)

  /** A text between an opening and a closing quote, and what follows. */
  function Quoted(open: string, s: string): Option<(string, string)> {
    if !(open <= s) then None
    else
      var r := s[|open|..];
      var k := Find(r, "\"");
      if k.None? then None else Some((r[..k.value], r[k.value + 1..]))
  }

  function ParseHeader(w: Wording, h: string, content: string): Option<Part> {
    var name := Quoted(w.name, h);
    if name.None? then None
    else
      var file := Quoted(w.fileName, name.value.1);
      if file.None? || !(CRLF + w.contentType <= file.value.1) then None
      else Some(Part(name.value.0, file.value.0, file.value.1[|CRLF + w.contentType|..], content))
  }

  /** Behind the rest of the boundary line: the headers up to the blank line, and the content. */
  function Cut(piece: string): Option<(string, string)> {
    var p := SkipPadding(piece);
    var k := Find(p, CRLF + CRLF);
    if !(CRLF <= p) || k.None? || k.value < 2 then None else Some((p[2..k.value], p[k.value + 4..]))
  }

  function ParsePart(w: Wording, piece: string): Option<Part> {
    var c := Cut(piece);
    if c.None? then None else ParseHeader(w, c.value.0, c.value.1)
  }

  function ParseParts(w: Wording, pieces: seq<string>): Option<seq<Part>> {
    if pieces == [] then Some([])
    else
      var part, rest := ParsePart(w, pieces[0]), ParseParts(w, pieces[1..]);
      if part.None? || rest.None? then None else Some([part.value] + rest.value)
  }

  function Receive(w: Wording, body: string, boundary: string): Option<seq<Part>> {
    var pieces := Unframe(body, boundary);
    if pieces.None? then None else ParseParts(w, pieces.value)
  }

  // ---------------------------------------------------------------- framing is undone

  lemma DelimiterShape(boundary: string)
    requires '\r' !in boundary
    ensures NoSelfOverlap(Delimiter(boundary))
  {
    assert Delimiter(boundary)[1..] == "\n" + ("--" + boundary);
  }

  lemma ClosingOnly(boundary: string)
    ensures !Occurs(Delimiter(boundary), "--" + CRLF)
  {
    var d, last := Delimiter(boundary), "--" + CRLF;
    FindFirst(last, d);
    forall k | 0 <= k <= |last| ensures !(d <= last[k..]) {
      if k < 2 {
        assert last[k..][0] == '-';
      } else {
        assert |last[k..]| < |d|;
      }
    }
  }

  lemma {:induction false} EnclosedAll(pieces: seq<string>, last: string)
    requires "--" <= last && forall i | 0 <= i < |pieces| :: !("--" <= pieces[i])
    ensures Enclosed(pieces + [last]) == Some(pieces)
  {
    if pieces == [] {
      assert pieces + [last] == [last];
    } else {
      EnclosedAll(pieces[1..], last);
      assert (pieces + [last])[1..] == pieces[1..] + [last];
      assert pieces == [pieces[0]] + pieces[1..];
    }
  }

  lemma SplitAlone(s: string, d: string)
    requires d != "" && !Occurs(d, s)
    ensures SplitOn(s, d) == [s]
  {
  }

  lemma SplitOnto(p: string, d: string, rest: string, more: seq<string>, last: string)
    requires NoSelfOverlap(d) && !Occurs(d, p) && SplitOn(rest, d) == more + [last]
    ensures SplitOn(p + d + rest, d) == [p] + more + [last]
  {
    SplitFirst(p, d, rest);
    assert [p] + (more + [last]) == [p] + more + [last];
  }

  lemma NothingLeft(pieces: seq<string>, last: string)
    ensures pieces[|pieces|..] + [last] == [last]
  {
  }

  lemma OneLeft(pieces: seq<string>, n: nat)
    requires n < |pieces|
    ensures pieces[n..] == [pieces[n]] + pieces[n + 1..]
  {
  }

  ghost predicate FreePiece(pieces: seq<string>, d: string, i: int) {
    0 <= i < |pieces| ==> !Occurs(d, pieces[i])
  }

  lemma {:induction false} TailSplits(pieces: seq<string>, n: nat, d: string, last: string)
    requires n <= |pieces| && NoSelfOverlap(d) && last == "--" + CRLF && !Occurs(d, last)
    requires forall i :: FreePiece(pieces, d, i)
    ensures SplitOn(Tail(pieces, n, d), d) == pieces[n..] + [last]
    decreases |pieces| - n
  {
    if n == |pieces| {
      SplitAlone(last, d);
      NothingLeft(pieces, last);
    } else {
      TailSplits(pieces, n + 1, d, last);
      assert FreePiece(pieces, d, n);
      SplitOnto(pieces[n], d, Tail(pieces, n + 1, d), pieces[n + 1..], last);
      OneLeft(pieces, n);
    }
  }

  /** Pieces that do not contain the delimiter are recovered, whatever they are. */
  lemma FramingUndone(pieces: seq<string>, boundary: string, body: string)
    requires Frames(pieces, Delimiter(boundary), body) && '\r' !in boundary
    requires forall i | 0 <= i < |pieces| :: !Occurs(Delimiter(boundary), pieces[i]) && !("--" <= pieces[i])
    ensures Unframe(body, boundary) == Some(pieces)
  {
    var d := Delimiter(boundary);
    DelimiterShape(boundary);
    ClosingOnly(boundary);
    TailSplits(pieces, 0, d, "--" + CRLF);
    assert !Occurs(d, Preamble(pieces));
    SplitFirst(Preamble(pieces), d, Tail(pieces, 0, d));
    assert pieces[0..] == pieces;
    EnclosedAll(pieces, "--" + CRLF);
  }

  lemma {:induction false} EnclosedFrom(ps: seq<string>)
    ensures Enclosed(ps).Some? ==> forall p | p in Enclosed(ps).value :: p in ps
  {
    if ps != [] {
      EnclosedFrom(ps[1..]);
    }
  }

  lemma UnframedFree(body: string, boundary: string)
    requires Unframe(body, boundary).Some?
    ensures forall p | p in Unframe(body, boundary).value :: !Occurs(Delimiter(boundary), p)
  {
    PiecesFree(CRLF + body, Delimiter(boundary));
    EnclosedFrom(SplitOn(CRLF + body, Delimiter(boundary))[1..]);
  }

  // ---------------------------------------------------------------- headers are undone

  /** What the fixed header texts must be for headers to be read back. */
  ghost predicate Fit(w: Wording) {
    && w.name != "" && '\r' !in w.name && w.name[0] != '-'
    && '\r' !in w.fileName
    && w.contentType != "" && '\r' !in w.contentType && w.contentType[0] != '-'
    && '\r' !in w.file && '\r' !in w.directory
  }

  /** Two lines and a blank line, then anything. */
  function Lines(a: string, b: string, content: string): string {
    CRLF + a + CRLF + b + CRLF + (CRLF + content)
  }

  ghost predicate Line(a: string) {
    a != "" && '\r' !in a && a[0] != '-'
  }

  /** A line break in the header block is followed by the first character of a line. */
  lemma LineBreaks(a: string, b: string, content: string, k: nat)
    requires Line(a) && Line(b) && k < 4 + |a| + |b|
    ensures var p := Lines(a, b, content); p[k] == '\r' ==> p[k + 2] == a[0] || p[k + 2] == b[0]
  {
    var p := Lines(a, b, content);
    if 2 <= k < 2 + |a| {
      assert p[k] == a[k - 2] && a[k - 2] in a;
    } else if 4 + |a| <= k {
      assert p[k] == b[k - 4 - |a|] && b[k - 4 - |a|] in b;
    }
  }

  lemma BlankLine(a: string, b: string, content: string)
    requires Line(a) && Line(b)
    ensures Find(Lines(a, b, content), CRLF + CRLF) == Some(4 + |a| + |b|)
  {
    var p, d, n := Lines(a, b, content), CRLF + CRLF, 4 + |a| + |b|;
    FindFirst(p, d);
    assert a[0] in a && b[0] in b;
    forall k | 0 <= k < n ensures !(d <= p[k..]) {
      LineBreaks(a, b, content, k);
      assert p[k..][0] == p[k] && p[k..][2] == p[k + 2];
    }
    assert p[n..] == d + content;
  }

  /** The delimiter occurs in a piece exactly when it does in the content and the line break before it. */
  lemma PieceFree(a: string, b: string, content: string, boundary: string)
    requires Line(a) && Line(b)
    ensures Occurs(Delimiter(boundary), Lines(a, b, content)) <==> Occurs(Delimiter(boundary), CRLF + content)
  {
    var d, n := Delimiter(boundary), 6 + |a| + |b|;
    var head := CRLF + a + CRLF + b + CRLF;
    var p := head + (CRLF + content);
    forall k | 0 <= k < n ensures !(d <= p[k..]) {
      assert p[k..][0] == p[k] && p[k..][2] == p[k + 2];
      if k < n - 2 {
        LineBreaks(a, b, content, k);
      } else {
        assert p[n - 2] == '\r' && p[n - 1] == '\n' && p[n] == '\r';
      }
    }
    OccursBehind(d, head, CRLF + content);
  }

  lemma QuotedRead(open: string, f: string, rest: string)
    requires '"' !in f
    ensures Quoted(open, open + (f + "\"" + rest)) == Some((f, rest))
  {
    var h, r := open + (f + "\"" + rest), f + "\"" + rest;
    assert h[|open|..] == r;
    FindAfter(f, "\"", rest);
    assert r[..|f|] == f && r[|f| + 1..] == rest;
  }

  lemma HeaderRead(w: Wording, f: string, g: string, kind: string, content: string)
    requires '"' !in f && '"' !in g
    ensures ParseHeader(w, w.name + (f + "\"" + (w.fileName + (g + "\"" + (CRLF + w.contentType + kind)))), content)
            == Some(Part(f, g, kind, content))
  {
    var last := CRLF + w.contentType + kind;
    QuotedRead(w.fileName, g, last);
    QuotedRead(w.name, f, w.fileName + (g + "\"" + last));
    assert last[|CRLF + w.contentType|..] == kind;
  }

  lemma Regroup3(name: string, f: string, fileName: string, g: string, quote: string, nl: string, b: string, kind: string)
    ensures name + f + quote + fileName + g + quote + nl + (b + kind) == name + (f + quote + (fileName + (g + quote + (nl + b + kind))))
  {
  }

  function PartOf(w: Wording, c: Candidate, index: nat): Part {
    Part(FieldName(c, index), FileName(c), ContentType(w, c), c.content.GetOr(""))
  }

  function PartsOf(w: Wording, cs: seq<Candidate>): seq<Part> {
    seq(|cs|, i requires 0 <= i < |cs| => PartOf(w, cs[i], i))
  }

  lemma NamesPlain(c: Candidate, index: nat)
    ensures Plain(FieldName(c, index)) && Plain(FileName(c))
  {
    NamePlain(c, index);
    ComponentRoundTrip(c.path.GetOr([]));
  }

  lemma PartRead(w: Wording, c: Candidate, index: nat)
    requires Fit(w)
    ensures ParsePart(w, Piece(w, c, index)) == Some(PartOf(w, c, index))
    ensures Line(Disposition(w, c, index)) && Line(w.contentType + ContentType(w, c))
  {
    NamesPlain(c, index);
    LinesRead(w, FieldName(c, index), FileName(c), Disposition(w, c, index),
              w.contentType + ContentType(w, c), ContentType(w, c), c.content.GetOr(""));
  }

  lemma PieceSafe(w: Wording, c: Candidate, index: nat, boundary: string)
    requires Fit(w)
    ensures Occurs(Delimiter(boundary), Piece(w, c, index)) <==> Occurs(Delimiter(boundary), CRLF + c.content.GetOr(""))
    ensures !("--" <= Piece(w, c, index))
  {
    PartRead(w, c, index);
    PieceFree(Disposition(w, c, index), w.contentType + ContentType(w, c), c.content.GetOr(""), boundary);
    assert Piece(w, c, index)[0] == '\r';
  }

  lemma LinesRead(w: Wording, f: string, g: string, a: string, b: string, kind: string, content: string)
    requires Fit(w) && Plain(f) && Plain(g) && '\r' !in kind
    requires a == w.name + f + "\"" + w.fileName + g + "\"" && b == w.contentType + kind
    ensures ParsePart(w, Lines(a, b, content)) == Some(Part(f, g, kind, content))
    ensures Line(a) && Line(b)
  {
    assert a[0] == w.name[0] && b[0] == w.contentType[0];
    CutLines(a, b, content);
    Regroup3(w.name, f, w.fileName, g, "\"", CRLF, w.contentType, kind);
    HeaderRead(w, f, g, kind, content);
  }

  lemma CutLines(a: string, b: string, content: string)
    requires Line(a) && Line(b)
    ensures Cut(Lines(a, b, content)) == Some((a + CRLF + b, content))
  {
    var p := Lines(a, b, content);
    BlankLine(a, b, content);
    assert SkipPadding(p) == p;
    assert p[2..4 + |a| + |b|] == a + CRLF + b;
    assert p[4 + |a| + |b| + 4..] == content;
  }

  // ---------------------------------------------------------------- main result

  lemma PartsCons(w: Wording, piece: string, part: Part, pieces: seq<string>, parts: seq<Part>)
    requires ParsePart(w, piece) == Some(part) && ParseParts(w, pieces) == Some(parts)
    ensures ParseParts(w, [piece] + pieces) == Some([part] + parts)
  {
    assert ([piece] + pieces)[1..] == pieces;
  }

  lemma {:induction false} PartsRead(w: Wording, pieces: seq<string>, parts: seq<Part>)
    requires |pieces| == |parts| && forall i | 0 <= i < |pieces| :: ParsePart(w, pieces[i]) == Some(parts[i])
    ensures ParseParts(w, pieces) == Some(parts)
  {
    if pieces != [] {
      PartsRead(w, pieces[1..], parts[1..]);
      PartsCons(w, pieces[0], parts[0], pieces[1..], parts[1..]);
      assert pieces == [pieces[0]] + pieces[1..] && parts == [parts[0]] + parts[1..];
    } else {
      assert parts == [];
    }
  }

  lemma PartsHead(w: Wording, pieces: seq<string>)
    requires pieces != [] && ParseParts(w, pieces).Some?
    ensures ParsePart(w, pieces[0]).Some? && ParseParts(w, pieces[1..]).Some?
    ensures ParseParts(w, pieces).value == [ParsePart(w, pieces[0]).value] + ParseParts(w, pieces[1..]).value
  {
  }

  lemma {:induction false} PartsFrom(w: Wording, pieces: seq<string>)
    requires ParseParts(w, pieces).Some?
    ensures var parts := ParseParts(w, pieces).value;
            |parts| == |pieces| && forall i | 0 <= i < |pieces| :: ParsePart(w, pieces[i]) == Some(parts[i])
  {
    if pieces != [] {
      PartsHead(w, pieces);
      var rest := pieces[1..];
      PartsFrom(w, rest);
      var parts := ParseParts(w, pieces).value;
      forall i | 0 <= i < |pieces| ensures ParsePart(w, pieces[i]) == Some(parts[i]) {
        assert i > 0 ==> pieces[i] == rest[i - 1];
      }
    }
  }

  lemma {:induction false} PaddingBefore(s: string)
    ensures exists k: nat :: k <= |s| && SkipPadding(s) == s[k..]
  {
    assert s[0..] == s;
    if s != "" && (s[0] == ' ' || s[0] == '\t') {
      PaddingBefore(s[1..]);
      var k: nat :| k <= |s[1..]| && SkipPadding(s[1..]) == s[1..][k..];
      assert s[1..][k..] == s[k + 1..];
    }
  }

  lemma SuffixFree(d: string, s: string, k: nat)
    requires k <= |s| && !Occurs(d, s)
    ensures !Occurs(d, s[k..])
  {
    FindFirst(s[k..], d);
    if Occurs(d, s[k..]) {
      var j := Find(s[k..], d).value;
      assert s[k..][j..] == s[k + j..];
      OccursAt(d, s, k + j);
    }
  }

  lemma BlankLineBefore(p: string)
    requires Find(p, CRLF + CRLF).Some?
    ensures var n := Find(p, CRLF + CRLF).value; p[n + 2..] == CRLF + p[n + 4..]
  {
    FindFirst(p, CRLF + CRLF);
    var n := Find(p, CRLF + CRLF).value;
    assert p[n..][2] == p[n + 2] && p[n..][3] == p[n + 3];
    assert (CRLF + CRLF)[2] == '\r' && (CRLF + CRLF)[3] == '\n';
  }

  /** The content cut out of a piece is as free of the delimiter as the piece. */
  lemma CutFree(piece: string, d: string)
    requires Cut(piece).Some? && !Occurs(d, piece)
    ensures !Occurs(d, CRLF + Cut(piece).value.1)
  {
    PaddingBefore(piece);
    var k: nat :| k <= |piece| && SkipPadding(piece) == piece[k..];
    var p := piece[k..];
    SuffixFree(d, piece, k);
    BlankLineBefore(p);
    SuffixFree(d, p, Find(p, CRLF + CRLF).value + 2);
  }

  /** The delimiter does not occur in the content, read together with the line break before it. */
  predicate Safe(c: Candidate, boundary: string) {
    !Occurs(Delimiter(boundary), CRLF + c.content.GetOr(""))
  }

  lemma PiecesRead(w: Wording, cs: seq<Candidate>)
    requires Fit(w)
    ensures ParseParts(w, Pieces(w, cs)) == Some(PartsOf(w, cs))
  {
    var pieces, parts := Pieces(w, cs), PartsOf(w, cs);
    forall i | 0 <= i < |cs| ensures ParsePart(w, pieces[i]) == Some(parts[i]) {
      PartRead(w, cs[i], i);
    }
    PartsRead(w, pieces, parts);
  }

  lemma SafeDecodes(w: Wording, cs: seq<Candidate>, boundary: string, body: string)
    requires Fit(w) && '\r' !in boundary && Frames(Pieces(w, cs), Delimiter(boundary), body)
    requires forall i | 0 <= i < |cs| :: Safe(cs[i], boundary)
    ensures Receive(w, body, boundary) == Some(PartsOf(w, cs))
  {
    var pieces := Pieces(w, cs);
    forall i | 0 <= i < |cs| ensures !Occurs(Delimiter(boundary), pieces[i]) && !("--" <= pieces[i]) {
      PieceSafe(w, cs[i], i, boundary);
      assert Safe(cs[i], boundary);
    }
    FramingUndone(pieces, boundary, body);
    PiecesRead(w, cs);
  }

  lemma DecodesSafe(w: Wording, cs: seq<Candidate>, boundary: string, body: string)
    requires Receive(w, body, boundary) == Some(PartsOf(w, cs))
    ensures forall i | 0 <= i < |cs| :: Safe(cs[i], boundary)
  {
    var ps := Unframe(body, boundary).value;
    UnframedFree(body, boundary);
    PartsFrom(w, ps);
    forall i | 0 <= i < |cs| ensures Safe(cs[i], boundary) {
      assert ps[i] in ps && ParsePart(w, ps[i]) == Some(PartOf(w, cs[i], i));
      CutFree(ps[i], Delimiter(boundary));
    }
  }

  /**
   The printed body is uniquely decodable: a receiver that follows section 5.1.1 of RFC 2046
   gets back exactly the list of (field name, file name, type, content), if and only if the
   delimiter starts nowhere in a content or in the line break before it.
   */
  lemma {:induction false} Decodable(cs: seq<Candidate>, boundary: string, body: string)
    requires '\r' !in boundary && Frames(Pieces(HTTP, cs), Delimiter(boundary), body)
    ensures Received(HTTP, cs, boundary, body) <==> AllSafe(cs, boundary)
  {
    HttpFit();
    if AllSafe(cs, boundary) {
      SafeDecodes(HTTP, cs, boundary, body);
    }
    if Received(HTTP, cs, boundary, body) {
      DecodesSafe(HTTP, cs, boundary, body);
    }
  }

  ghost predicate Received(w: Wording, cs: seq<Candidate>, boundary: string, body: string) {
    Receive(w, body, boundary) == Some(PartsOf(w, cs))
  }

  ghost predicate AllSafe(cs: seq<Candidate>, boundary: string) {
    forall i | 0 <= i < |cs| :: Safe(cs[i], boundary)
  }

  /** The wording of a piece: its two header lines, a blank line and the content. */
  lemma PieceIs(c: Candidate, index: nat)
    ensures CRLF == [13 as char, 10 as char]
    ensures Piece(HTTP, c, index) ==
            CRLF + ("Content-Disposition: form-data; name=\"" + FieldName(c, index) + "\"" +
                    "; filename=\"" + EncodeComponent(c.path.GetOr([])) + "\"") +
            CRLF + ("Content-Type: " + if c.content.Some? then "application/octet-stream" else "application/x-directory") +
            CRLF + (CRLF + c.content.GetOr(""))
  {
  }

  /** The wording of a body without entries, and of one with one or two. */
  lemma {:induction false} BodyIs(boundary: string, p: string, q: string, body: string)
    ensures Frames([], Delimiter(boundary), body) <==> body == CRLF + ("--" + boundary) + ("--" + CRLF)
    ensures Frames([p], Delimiter(boundary), body) <==> body == ("--" + boundary) + p + (CRLF + ("--" + boundary)) + ("--" + CRLF)
    ensures Frames([p, q], Delimiter(boundary), body) <==>
            body == ("--" + boundary) + p + (CRLF + ("--" + boundary)) + q + (CRLF + ("--" + boundary)) + ("--" + CRLF)
  {
    BodyNone(CRLF, "--" + boundary, "--" + CRLF, body);
    BodyOne(CRLF, "--" + boundary, p, "--" + CRLF, body);
    BodyTwo(CRLF, "--" + boundary, p, q, "--" + CRLF, body);
    var d := Delimiter(boundary);
    assert Tail([], 0, d) == "--" + CRLF;
    assert Tail([p], 0, d) == p + d + ("--" + CRLF);
    assert Tail([p, q], 1, d) == q + d + ("--" + CRLF);
    assert Tail([p, q], 0, d) == p + d + (q + d + ("--" + CRLF));
    assert Preamble([]) == CRLF && Preamble([p]) == Preamble([p, q]) == "";
  }

  lemma BodyNone(nl: string, dash: string, last: string, body: string)
    ensures nl + body == nl + (nl + dash) + last <==> body == nl + dash + last
  {
    Strip(nl, body, nl + dash + last);
    assert nl + (nl + dash) + last == nl + (nl + dash + last);
  }

  lemma BodyOne(nl: string, dash: string, p: string, last: string, body: string)
    ensures nl + body == "" + (nl + dash) + (p + (nl + dash) + last) <==> body == dash + p + (nl + dash) + last
  {
    Strip(nl, body, dash + p + (nl + dash) + last);
    assert "" + (nl + dash) + (p + (nl + dash) + last) == nl + (dash + p + (nl + dash) + last);
  }

  lemma BodyTwo(nl: string, dash: string, p: string, q: string, last: string, body: string)
    ensures nl + body == "" + (nl + dash) + (p + (nl + dash) + (q + (nl + dash) + last)) <==>
            body == dash + p + (nl + dash) + q + (nl + dash) + last
  {
    Strip(nl, body, dash + p + (nl + dash) + q + (nl + dash) + last);
    assert "" + (nl + dash) + (p + (nl + dash) + (q + (nl + dash) + last)) ==
           nl + (dash + p + (nl + dash) + q + (nl + dash) + last);
  }

  lemma Strip(head: string, a: string, b: string)
    ensures head + a == head + b <==> a == b
  {
    assert (head + a)[|head|..] == a && (head + b)[|head|..] == b;
  }

  /** What is received tells place, mode, time and path of the entry. */
  lemma {:induction false} PartMeans(w: Wording, c: Candidate, index: nat)
    ensures var part := PartOf(w, c, index);
            && IndexOf(part.name) == index && ModeOf(part.name) == c.mode && MtimeOf(part.name) == c.mtime
            && DecodeComponent(part.fileName) == c.path.GetOr([])
            && part.content == c.content.GetOr("")
            && part.contentType == if c.content.Some? then w.file else w.directory
  {
    ModeRecovered(c, index);
    MtimeRecovered(c, index);
    IndexRecovered(c, index);
    ComponentRoundTrip(c.path.GetOr([]));
  }

  lemma NameFit()
    ensures '\r' !in NAME && NAME != "" && NAME[0] != '-'
  {
  }

  lemma FileNameFit()
    ensures '\r' !in FILE_NAME
  {
  }

  lemma ContentTypeFit()
    ensures '\r' !in CONTENT_TYPE && CONTENT_TYPE != "" && CONTENT_TYPE[0] != '-'
  {
  }

  lemma FileFit()
    ensures '\r' !in FILE
  {
  }

  lemma DirectoryFit()
    ensures '\r' !in DIRECTORY
  {
  }

  lemma HttpFit()
    ensures Fit(HTTP)
  {
    NameFit();
    FileNameFit();
    ContentTypeFit();
    FileFit();
    DirectoryFit();
  }

  lemma DropTwo(d: string, t: string)
    requires 2 <= |d| && 2 <= |t|
    ensures d <= t ==> d[2..] <= t[2..]
  {
  }

  /** A content in which two hyphens and the boundary do not occur is safe, wherever it starts. */
  lemma {:induction false} DashFreeIsSafe(c: Candidate, boundary: string)
    requires !Occurs("--" + boundary, c.content.GetOr(""))
    ensures Safe(c, boundary)
  {
    var content, d := c.content.GetOr(""), Delimiter(boundary);
    var s := CRLF + content;
    FindFirst(s, d);
    FindFirst(content, "--" + boundary);
    forall k | 0 <= k <= |s| ensures !(d <= s[k..]) {
      if k + 2 <= |s| {
        assert s[k + 2..] == content[k..];
        assert s[k..][2..] == s[k + 2..] && d[2..] == "--" + boundary;
        DropTwo(d, s[k..]);
      } else {
        assert |s[k..]| < |d|;
      }
    }
  }
}
