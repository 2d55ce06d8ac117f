/** Text with every escapable character escaped is only text. */
module InlineEscapes {
  import opened Results
  import opened MarkdownText
  import opened MarkdownInline

  /** A backslash before every character that can be escaped. */
  function Escape(t: string): string {
    if t == [] then []
    else (if Escapable(t[0]) then ['\\', t[0]] else [t[0]]) + Escape(t[1..])
  }

  /** In escaped text a colon always has its backslash before it. */
  lemma {:induction false} ColonEscaped(t: string, k: nat)
    requires k < |Escape(t)| && Escape(t)[k] == ':'
    ensures k > 0 && Escape(t)[k - 1] == '\\'
  {
    var n := if Escapable(t[0]) then 2 else 1;
    if k >= n {
      assert Escape(t)[n..] == Escape(t[1..]);
      assert Escape(t)[k] == Escape(t[1..])[k - n];
      ColonEscaped(t[1..], k - n);
      assert Escape(t)[k - 1] == Escape(t[1..])[k - n - 1];
    }
  }

  lemma {:induction false} ColonAfterBackslash(text: string, a: string, t: string, n: nat)
    requires text == a + Escape(t) && n > 0
    ensures |a| + n < |text| && text[|a| + n] == ':' ==> text[|a| + n - 1] == '\\'
  {
    if |a| + n < |text| && text[|a| + n] == ':' {
      assert text[|a| + n] == Escape(t)[n] && text[|a| + n - 1] == Escape(t)[n - 1];
      ColonEscaped(t, n);
    }
  }

  lemma {:induction false} BeginsAt(text: string, i: nat, prefix: string, k: nat)
    requires 0 < k < |prefix|
    ensures Begins(text, i, prefix) ==> text[i + k] == prefix[k] && text[i + k - 1] == prefix[k - 1]
  {
    if Begins(text, i, prefix) {
      assert text[i..i + |prefix|][k] == text[i + k] && text[i..i + |prefix|][k - 1] == text[i + k - 1];
    }
  }

  /** So no bare URL starts in it. */
  lemma {:induction false} NoUrl(text: string, a: string, t: string)
    requires text == a + Escape(t) && t != []
    ensures BareUrl(text, |a|).None?
  {
    ColonAfterBackslash(text, a, t, 4);
    ColonAfterBackslash(text, a, t, 5);
    BeginsAt(text, |a|, ['h', 't', 't', 'p', ':', '/', '/'], 4);
    BeginsAt(text, |a|, ['h', 't', 't', 'p', 's', ':', '/', '/'], 5);
  }

  /** One character of the original is read by one turn. */
  lemma {:induction false} ReadsOne(alnum: Alnum, text: string, offset: int, inLink: bool, a: string, t: string, buffer: string)
    requires text == a + Escape(t) && t != [] && t[0] != '\n'
    ensures TakeTurn(alnum, text, offset, inLink, State(|a|, [], buffer))
         == Ok(State(|a| + (if Escapable(t[0]) then 2 else 1), [], buffer + [t[0]]))
  {
    var i := |a|;
    assert text[i] == Escape(t)[0];
    if Escapable(t[0]) {
      assert text[i + 1] == Escape(t)[1];
    } else {
      NoUrl(text, a, t);
      BeginsAt(text, i, ['!', '['], 1);
      BeginsAt(text, i, ['~', '~'], 1);
    }
  }

  lemma {:induction false} TurnTaken(alnum: Alnum, text: string, offset: int, inLink: bool, st: State, next: State)
    requires st.index < |text| && TakeTurn(alnum, text, offset, inLink, st) == Ok(next)
    ensures ParseFrom(alnum, text, offset, inLink, st) == ParseFrom(alnum, text, offset, inLink, next)
  {
    assert ParseFrom(alnum, text, offset, inLink, st) == GoOn(alnum, text, offset, inLink, st);
  }

  /** What one character of the original takes up. */
  function EscapeOne(c: char): string {
    if Escapable(c) then ['\\', c] else [c]
  }

  lemma {:induction false} ReadsAll(alnum: Alnum, text: string, offset: int, inLink: bool, a: string, t: string, buffer: string)
    requires text == a + Escape(t) && '\n' !in t
    ensures ParseFrom(alnum, text, offset, inLink, State(|a|, [], buffer)) == Ok(Flushed(State(|text|, [], buffer + t)))
    decreases |t|
  {
    if t == [] {
      assert text == a && buffer + t == buffer;
    } else {
      ReadsFirst(alnum, text, offset, inLink, a, t, buffer);
      assert text == a + EscapeOne(t[0]) + Escape(t[1..]);
      ReadsAll(alnum, text, offset, inLink, a + EscapeOne(t[0]), t[1..], buffer + [t[0]]);
      assert buffer + [t[0]] + t[1..] == buffer + t;
    }
  }

  lemma {:induction false} ReadsFirst(alnum: Alnum, text: string, offset: int, inLink: bool, a: string, t: string, buffer: string)
    requires text == a + Escape(t) && t != [] && t[0] != '\n'
    ensures |a + EscapeOne(t[0])| <= |text|
    ensures ParseFrom(alnum, text, offset, inLink, State(|a|, [], buffer))
         == ParseFrom(alnum, text, offset, inLink, State(|a + EscapeOne(t[0])|, [], buffer + [t[0]]))
  {
    ReadsOne(alnum, text, offset, inLink, a, t, buffer);
    TurnTaken(alnum, text, offset, inLink, State(|a|, [], buffer), State(|a + EscapeOne(t[0])|, [], buffer + [t[0]]));
  }

  /** Escaped text without a newline parses back to exactly the text, wherever it stands. */
  lemma {:induction false} EscapedIsText(alnum: Alnum, t: string, offset: int, inLink: bool)
    requires '\n' !in t
    ensures Parse(alnum, Escape(t), offset, inLink) == Ok(if t == [] then [] else [Text(t)])
  {
    var none: string := [];
    assert Escape(t) == none + Escape(t) && none + t == t;
    ReadsAll(alnum, Escape(t), offset, inLink, none, t, none);
    assert t != [] ==> Flushed(State(|Escape(t)|, [], t)) == [Text(t)];
  }
}
