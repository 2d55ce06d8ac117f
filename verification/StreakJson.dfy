/** The JSON of a streak determines it, so a reader that undoes the writer exists. */
module StreakJson {
  import opened Results
  import opened StreakRecord

  /** The character that an escaped text begins with. */
  function Unescaped(t: string): char
    requires t != []
  {
    if t[0] != '\\' || |t| < 2 then t[0]
    else match t[1]
         case 'n' => '\n'
         case 'r' => '\r'
         case 't' => '\t'
         case 'b' => 8 as char
         case 'f' => 12 as char
         case 'u' => if |t| < 6 then t[0] else (16 * HexValue(t[4]) + HexValue(t[5])) as char
         case c => c
  }

  function HexValue(c: char): (r: nat)
    ensures r < 100
  {
    if '0' <= c <= '9' then c as int - '0' as int else if 'a' <= c <= 'f' then c as int - 'a' as int + 10 else 0
  }

  lemma {:induction false} HexRead(d: nat)
    requires d < 16
    ensures HexValue("0123456789abcdef"[d]) == d
  {
  }

  lemma {:induction false} EscapedRead(c: char, rest: string)
    ensures Unescaped(Escaped(c) + rest) == c
  {
    if c < ' ' { ControlRead(c, rest); }
    else { assert c != '"' && c != '\\' ==> (Escaped(c) + rest)[0] == c; }
  }

  lemma {:induction false} ControlRead(c: char, rest: string)
    requires c < ' '
    ensures Unescaped(Escaped(c) + rest) == c
  {
    var t := Escaped(c) + rest;
    assert t[0] == Escaped(c)[0] && t[1] == Escaped(c)[1];
    if t[1] == 'u' {
      assert t[4] == Escaped(c)[4] && t[5] == Escaped(c)[5];
      HexRead(c as int / 16);
      HexRead(c as int % 16);
    }
  }

  lemma {:induction false} EscapedApart(c: char, d: char, u: string, v: string)
    requires Escaped(c) + u == Escaped(d) + v
    ensures c == d && u == v
  {
    EscapedRead(c, u);
    EscapedRead(d, v);
    assert u == (Escaped(c) + u)[|Escaped(c)|..];
    assert v == (Escaped(d) + v)[|Escaped(d)|..];
  }

  /** No escaped character begins with a quote. */
  lemma {:induction false} NoQuoteFirst(c: char, u: string, v: string)
    ensures Escaped(c) + u != ['"'] + v
  {
    assert (Escaped(c) + u)[0] == Escaped(c)[0] != '"';
  }

  /** An escaped text ends at its closing quote and nowhere else. */
  lemma {:induction false} EscapeEnds(a: string, b: string, u: string, v: string)
    requires Escape(a) + (['"'] + u) == Escape(b) + (['"'] + v)
    ensures a == b && u == v
    decreases |a|
  {
    if a == [] && b == [] {
      assert Escape(a) == [] && Escape(b) == [];
      Assoc([], ['"'], u);
      Assoc([], ['"'], v);
      Dropped([] + ['"'], u, v);
    } else if a == [] {
      Unfold(b, v);
      NoQuoteFirst(b[0], Escape(b[1..]) + (['"'] + v), u);
    } else if b == [] {
      Unfold(a, u);
      NoQuoteFirst(a[0], Escape(a[1..]) + (['"'] + u), v);
    } else {
      Unfold(a, u);
      Unfold(b, v);
      EscapedApart(a[0], b[0], Escape(a[1..]) + (['"'] + u), Escape(b[1..]) + (['"'] + v));
      EscapeEnds(a[1..], b[1..], u, v);
      assert a == [a[0]] + a[1..] && b == [b[0]] + b[1..];
    }
  }

  lemma {:induction false} Unfold(a: string, u: string)
    requires a != []
    ensures Escape(a) + (['"'] + u) == Escaped(a[0]) + (Escape(a[1..]) + (['"'] + u))
  {
  }

  // ---- numbers

  function Value(digits: string): int
  {
    if digits == [] then 0 else 10 * Value(digits[..|digits| - 1]) + (digits[|digits| - 1] as int - '0' as int)
  }

  lemma {:induction false} DigitsValue(n: nat)
    ensures Value(Digits(n)) == n && Digits(n) != []
  {
    var last := "0123456789"[n % 10];
    assert last as int - '0' as int == n % 10;
    if n >= 10 {
      DigitsValue(n / 10);
      assert Digits(n) == Digits(n / 10) + [last];
      assert Digits(n)[..|Digits(n)| - 1] == Digits(n / 10);
    } else {
      assert Digits(n) == [last] && Digits(n)[..0] == [];
      assert Value([]) == 0;
    }
  }

  lemma {:induction false} DecimalSame(a: int, b: int)
    requires Decimal(a) == Decimal(b)
    ensures a == b
  {
    DigitsAreDigits(if a < 0 then -a else a);
    DigitsAreDigits(if b < 0 then -b else b);
    DigitsValue(if a < 0 then -a else a);
    DigitsValue(if b < 0 then -b else b);
    assert a < 0 ==> Decimal(a)[0] == '-' && Decimal(a)[1..] == Digits(-a);
    assert b < 0 ==> Decimal(b)[0] == '-' && Decimal(b)[1..] == Digits(-b);
    assert a >= 0 ==> Decimal(a)[0] in Digits(a);
    assert b >= 0 ==> Decimal(b)[0] in Digits(b);
  }

  /** Text without the mark ends at the mark. */
  lemma {:induction false} MarkEnds(a: string, b: string, mark: char, u: string, v: string)
    requires mark !in a && mark !in b && a + ([mark] + u) == b + ([mark] + v)
    ensures a == b && u == v
  {
    var t := a + ([mark] + u);
    assert t[|a|] == mark && t[|b|] == mark;
    assert forall k :: 0 <= k < |a| ==> t[k] == a[k];
    assert forall k :: 0 <= k < |b| ==> t[k] == b[k];
    assert t[..|a|] == a && t[..|b|] == b && t[|a| + 1..] == u && t[|b| + 1..] == v;
  }

  // ---- the object

  lemma {:induction false} PrintEnds(a: Json, b: Json, u: string, v: string)
    requires a.Number? == b.Number? && Print(a) + (", " + u) == Print(b) + (", " + v)
    ensures a == b && u == v
  {
    if a.Number? {
      NumberEnds(a.number, b.number, ", " + u, ", " + v);
    } else {
      QuotedEnds(a.text, b.text, ", " + u, ", " + v);
    }
    Dropped(", ", u, v);
  }

  lemma {:induction false} NumberEnds(a: int, b: int, u: string, v: string)
    requires u != [] && v != [] && u[0] == v[0] == ',' && Decimal(a) + u == Decimal(b) + v
    ensures a == b && u == v
  {
    DecimalIsPlain(a);
    DecimalIsPlain(b);
    assert u == [','] + u[1..] && v == [','] + v[1..];
    MarkEnds(Decimal(a), Decimal(b), ',', u[1..], v[1..]);
    DecimalSame(a, b);
  }

  lemma {:induction false} QuotedEnds(a: string, b: string, u: string, v: string)
    requires Quoted(a) + u == Quoted(b) + v
    ensures a == b && u == v
  {
    QuoteOpens(Escape(a), u);
    QuoteOpens(Escape(b), v);
    Dropped(['"'], Escape(a) + (['"'] + u), Escape(b) + (['"'] + v));
    EscapeEnds(a, b, u, v);
  }

  lemma {:induction false} QuoteOpens(e: string, u: string)
    ensures (['"'] + (e + ['"'])) + u == ['"'] + (e + (['"'] + u))
  {
  }

  ghost predicate SameShape(a: seq<Entry>, b: seq<Entry>) {
    |a| == |b| && forall k :: 0 <= k < |a| ==> a[k].0 == b[k].0 && a[k].1.Number? == b[k].1.Number?
  }

  lemma {:induction false} Dropped(a: string, u: string, v: string)
    requires a + u == a + v
    ensures u == v
  {
    assert (a + u)[|a|..] == u && (a + v)[|a|..] == v;
  }

  lemma {:induction false} Assoc(a: string, b: string, c: string)
    ensures (a + b) + c == a + (b + c)
  {
  }

  lemma {:induction false} ListedEnds(a: seq<Entry>, b: seq<Entry>, u: string, v: string)
    requires SameShape(a, b) && Listed(a) + u == Listed(b) + v
    ensures a == b && u == v
  {
    if a != [] {
      ListedUnfold(a, u);
      ListedUnfold(b, v);
      EntryEnds(a[0], b[0], Listed(a[1..]) + u, Listed(b[1..]) + v);
      ListedEnds(a[1..], b[1..], u, v);
      assert a == [a[0]] + a[1..] && b == [b[0]] + b[1..];
    } else {
      assert a == b;
      Dropped(Listed(a), u, v);
    }
  }

  lemma {:induction false} EntryEnds(a: Entry, b: Entry, u: string, v: string)
    requires a.0 == b.0 && a.1.Number? == b.1.Number?
    requires Key(a.0) + (Print(a.1) + (", " + u)) == Key(b.0) + (Print(b.1) + (", " + v))
    ensures a == b && u == v
  {
    Dropped(Key(a.0), Print(a.1) + (", " + u), Print(b.1) + (", " + v));
    PrintEnds(a.1, b.1, u, v);
  }

  lemma {:induction false} ListedUnfold(a: seq<Entry>, u: string)
    requires a != []
    ensures Listed(a) + u == Key(a[0].0) + (Print(a[0].1) + (", " + (Listed(a[1..]) + u)))
  {
  }

  lemma {:induction false} ObjectEnds(a: seq<Entry>, b: seq<Entry>, u: string, v: string)
    requires SameShape(a, b) && (['{'] + Listed(a)) + u == (['{'] + Listed(b)) + v
    ensures a == b && u == v
  {
    Assoc(['{'], Listed(a), u);
    Assoc(['{'], Listed(b), v);
    Dropped(['{'], Listed(a) + u, Listed(b) + v);
    ListedEnds(a, b, u, v);
  }

  /** Different streaks have different JSON. */
  lemma {:induction false} DumpsDetermines(a: Streak, b: Streak)
    requires Dumps(a) == Dumps(b)
    ensures a == b
  {
    ObjectEnds(Entries(a), Entries(b), Key("repository") + Ending(a), Key("repository") + Ending(b));
    Dropped(Key("repository"), Ending(a), Ending(b));
    QuotedEnds(a.repository, b.repository, ", " + (Key("schema_version") + "1}"), ", " + (Key("schema_version") + "1}"));
    EntriesDetermine(a, b);
  }

  lemma {:induction false} EntriesDetermine(a: Streak, b: Streak)
    requires Entries(a) == Entries(b) && a.repository == b.repository
    ensures a == b
  {
    assert forall k :: 0 <= k < 6 ==> Entries(a)[k] == Entries(b)[k];
    assert Entries(a)[0] == Entries(b)[0] && Entries(a)[1] == Entries(b)[1] && Entries(a)[2] == Entries(b)[2];
    assert Entries(a)[3] == Entries(b)[3] && Entries(a)[4] == Entries(b)[4] && Entries(a)[5] == Entries(b)[5];
  }

  /** Some reader undoes the writer. */
  lemma {:induction false} ReaderExists() returns (loads: Loads)
    ensures ReadsBack(loads)
  {
    loads := text => Inverse(text);
    forall s ensures loads(Dumps(s)) == Some(s) { InverseReads(s); }
  }

  ghost function Inverse(text: string): Option<Streak> {
    if exists s :: Dumps(s) == text then
      var s :| Dumps(s) == text;
      Some(s)
    else None
  }

  lemma {:induction false} InverseReads(s: Streak)
    ensures Inverse(Dumps(s)) == Some(s)
  {
    forall r | Dumps(r) == Dumps(s) ensures r == s { DumpsDetermines(r, s); }
  }
}
