/**
 * Python's `shlex.quote`, and the reading a POSIX shell gives to the word it
 * produces. The reading is the partner of the quoting: a quoted word read
 * back by the shell is the original string.
 */
module ShellQuote {
  import opened Wrappers

  /** The characters `shlex.quote` leaves bare: ASCII `\w` and `@%+=:,./-`. */
  predicate IsSafe(c: char) {
    || 'a' <= c <= 'z'
    || 'A' <= c <= 'Z'
    || '0' <= c <= '9'
    || c == '_' || c == '@' || c == '%' || c == '+' || c == '='
    || c == ':' || c == ',' || c == '.' || c == '/' || c == '-'
  }

  predicate AllSafe(s: string) {
    forall k :: 0 <= k < |s| ==> IsSafe(s[k])
  }

  /** `s.replace("'", "'\"'\"'")`: close the quote, emit `'` in double quotes, reopen. */
  function EscapeQuotes(s: string): string {
    if |s| == 0 then ""
    else (if s[0] == '\'' then "'\"'\"'" else [s[0]]) + EscapeQuotes(s[1..])
  }

  /** `shlex.quote(s)`. */
  function Quote(s: string): (q: string)
    ensures |q| >= 1
    ensures q != s ==> q[0] == '\'' && q[|q| - 1] == '\''
  {
    if s == "" then "''"
    else if AllSafe(s) then s
    else "'" + EscapeQuotes(s) + "'"
  }

  lemma {:induction false} EscapeWithoutQuotes(s: string)
    requires '\'' !in s
    ensures EscapeQuotes(s) == s
  {
    if |s| > 0 {
      assert '\'' !in s[1..] by {
        forall k | 0 <= k < |s| - 1
          ensures s[1..][k] != '\''
        {
          assert s[1..][k] == s[k + 1];
        }
      }
      EscapeWithoutQuotes(s[1..]);
      assert s == [s[0]] + s[1..];
    }
  }

  /** A string without `'` that needs quoting is wrapped in single quotes as it is. */
  lemma QuoteWraps(s: string)
    requires s != "" && !AllSafe(s) && '\'' !in s
    ensures Quote(s) == "'" + s + "'"
  {
    EscapeWithoutQuotes(s);
  }

  // ---------------------------------------------------------------------
  // How a POSIX shell reads one word

  function Prepend(c: char, o: Option<string>): Option<string> {
    match o
    case None => None
    case Some(x) => Some([c] + x)
  }

  function PrependAll(p: string, o: Option<string>): Option<string> {
    match o
    case None => None
    case Some(x) => Some(p + x)
  }

  /**
   * The text a word stands for: bare safe characters stand for themselves,
   * `'...'` stands for its contents, `"..."` for its contents as long as they
   * hold none of the characters that stay special there. `None` for anything
   * else (unterminated quotes, whitespace, expansions), which this reader does
   * not follow.
   */
  function UnquoteWord(t: string): Option<string>
    decreases |t|, 0
  {
    if |t| == 0 then Some("")
    else if t[0] == '\'' then InSingle(t[1..])
    else if t[0] == '"' then InDouble(t[1..])
    else if IsSafe(t[0]) then Prepend(t[0], UnquoteWord(t[1..]))
    else None
  }

  function InSingle(t: string): Option<string>
    decreases |t|, 1
  {
    if |t| == 0 then None
    else if t[0] == '\'' then UnquoteWord(t[1..])
    else Prepend(t[0], InSingle(t[1..]))
  }

  function InDouble(t: string): Option<string>
    decreases |t|, 1
  {
    if |t| == 0 then None
    else if t[0] == '"' then UnquoteWord(t[1..])
    else if t[0] == '$' || t[0] == '`' || t[0] == '\\' then None
    else Prepend(t[0], InDouble(t[1..]))
  }

  lemma {:induction false} UnquoteSafe(s: string)
    requires AllSafe(s)
    ensures UnquoteWord(s) == Some(s)
  {
    if |s| > 0 {
      UnquoteSafe(s[1..]);
      assert s == [s[0]] + s[1..];
    }
  }

  /** The escape of one `'` inside single quotes reads as that `'`. */
  lemma UnquoteEscapedQuote(tail: string)
    ensures InSingle("'\"'\"'" + tail) == Prepend('\'', InSingle(tail))
  {
    var t := "'\"'\"'" + tail;
    assert t[0] == '\'' && t[1..] == "\"'\"'" + tail;
    var t1 := t[1..];
    assert t1[0] == '"' && t1[1..] == "'\"'" + tail;
    var t2 := t1[1..];
    assert t2[0] == '\'' && t2[1..] == "\"'" + tail;
    var t3 := t2[1..];
    assert t3[0] == '"' && t3[1..] == "'" + tail;
    var t4 := t3[1..];
    assert t4[0] == '\'' && t4[1..] == tail;
    assert InSingle(t) == UnquoteWord(t1);
    assert UnquoteWord(t1) == InDouble(t2);
    assert InDouble(t2) == Prepend('\'', InDouble(t3));
    assert InDouble(t3) == UnquoteWord(t4);
  }

  lemma PrependAllCons(p: string, o: Option<string>)
    requires |p| > 0
    ensures PrependAll(p, o) == Prepend(p[0], PrependAll(p[1..], o))
  {
    if o.Some? {
      assert p + o.value == [p[0]] + (p[1..] + o.value);
    }
  }

  /** Inside single quotes, the escaped text of `s` followed by a closing quote reads as `s`. */
  lemma {:induction false} UnquoteEscaped(s: string, rest: string)
    ensures InSingle(EscapeQuotes(s) + "'" + rest) == PrependAll(s, UnquoteWord(rest))
  {
    if |s| == 0 {
      assert EscapeQuotes(s) + "'" + rest == ['\''] + rest;
      assert (['\''] + rest)[1..] == rest;
      assert UnquoteWord(rest).Some? ==> s + UnquoteWord(rest).value == UnquoteWord(rest).value;
    } else {
      var tail := EscapeQuotes(s[1..]) + "'" + rest;
      UnquoteEscaped(s[1..], rest);
      PrependAllCons(s, UnquoteWord(rest));
      if s[0] == '\'' {
        assert EscapeQuotes(s) + "'" + rest == "'\"'\"'" + tail;
        UnquoteEscapedQuote(tail);
      } else {
        assert EscapeQuotes(s) + "'" + rest == [s[0]] + tail;
        assert ([s[0]] + tail)[1..] == tail;
      }
    }
  }

  /** The shell reads every quoted word back as the string that was quoted. */
  lemma QuoteRoundTrip(s: string)
    ensures UnquoteWord(Quote(s)) == Some(s)
  {
    if s == "" {
      assert "''"[1..] == "'";
      assert InSingle("'") == UnquoteWord("");
    } else if AllSafe(s) {
      UnquoteSafe(s);
    } else {
      var q := "'" + EscapeQuotes(s) + "'";
      assert q[0] == '\'' && q[1..] == EscapeQuotes(s) + "'" + "";
      UnquoteEscaped(s, "");
      assert s + "" == s;
    }
  }

  lemma {:induction false} EscapeLength(s: string)
    ensures |EscapeQuotes(s)| >= |s|
  {
    if |s| > 0 {
      EscapeLength(s[1..]);
    }
  }

  /** `shlex.quote` returns its argument exactly when it is non-empty and all safe. */
  lemma QuoteIdentity(s: string)
    ensures Quote(s) == s <==> s != "" && AllSafe(s)
  {
    if s != "" && !AllSafe(s) {
      EscapeLength(s);
      assert |Quote(s)| >= |s| + 2;
    }
  }

  /** The quoting examples of the script generator's tests. */
  lemma QuoteExamples()
    ensures Quote("") == "''"
    ensures Quote("aname") == "aname"
    ensures Quote("a name") == "'a name'"
  {
    assert AllSafe("aname");
    assert !IsSafe("a name"[1]);
    assert '\'' !in "a name";
    QuoteWraps("a name");
  }
}
