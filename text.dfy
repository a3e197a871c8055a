/** The few `str` operations of Python that the scripts rely on. */
module Text {

  predicate StartsWith(s: string, prefix: string) {
    |prefix| <= |s| && s[..|prefix|] == prefix
  }

  /** `sep.join(parts)`. */
  function Join(parts: seq<string>, sep: string): string {
    if |parts| == 0 then ""
    else if |parts| == 1 then parts[0]
    else parts[0] + sep + Join(parts[1..], sep)
  }

  /** `''.join(parts)`. */
  function Concat(parts: seq<string>): string {
    if |parts| == 0 then "" else Concat(parts[..|parts| - 1]) + parts[|parts| - 1]
  }

  lemma {:induction false} ConcatAppend(a: seq<string>, b: seq<string>)
    ensures Concat(a + b) == Concat(a) + Concat(b)
  {
    if |b| == 0 {
      assert a + b == a;
    } else {
      var init := b[..|b| - 1];
      assert (a + b)[..|a + b| - 1] == a + init;
      assert Concat(a + b) == Concat(a + init) + b[|b| - 1];
      ConcatAppend(a, init);
    }
  }

  /** The position of the first occurrence of `c` in `s`. */
  function IndexOf(s: string, c: char): (i: nat)
    requires c in s
    ensures i < |s| && s[i] == c && c !in s[..i]
  {
    if s[0] == c then 0 else 1 + IndexOf(s[1..], c)
  }

  /**
   * `s.split(sep)` for a one-character separator: the pieces between the
   * separators, so that joining them back with `sep` gives `s` again.
   */
  function Split(s: string, sep: char): (pieces: seq<string>)
    ensures |pieces| >= 1
    ensures forall k :: 0 <= k < |pieces| ==> sep !in pieces[k]
    ensures Join(pieces, [sep]) == s
    decreases |s|
  {
    if sep !in s then [s]
    else
      var i := IndexOf(s, sep);
      var rest := Split(s[i + 1..], sep);
      assert s == s[..i] + [sep] + s[i + 1..];
      [s[..i]] + rest
  }

  /** The first separator of `head + [sep] + tail` is the one after `head`. */
  lemma {:induction false} IndexOfAfter(head: string, sep: char, tail: string)
    requires sep !in head
    ensures sep in head + [sep] + tail && IndexOf(head + [sep] + tail, sep) == |head|
  {
    var s := head + [sep] + tail;
    assert s[|head|] == sep;
    if |head| > 0 {
      assert s[1..] == head[1..] + [sep] + tail;
      IndexOfAfter(head[1..], sep, tail);
    }
  }

  /** Splitting undoes joining: pieces free of the separator come back unchanged. */
  lemma {:induction false} SplitJoin(pieces: seq<string>, sep: char)
    requires |pieces| >= 1
    requires forall k :: 0 <= k < |pieces| ==> sep !in pieces[k]
    ensures Split(Join(pieces, [sep]), sep) == pieces
  {
    if |pieces| > 1 {
      var head := pieces[0];
      var tail := Join(pieces[1..], [sep]);
      var s := Join(pieces, [sep]);
      assert s == head + [sep] + tail;
      IndexOfAfter(head, sep, tail);
      assert s[..|head|] == head;
      assert s[|head| + 1..] == tail;
      SplitJoin(pieces[1..], sep);
      assert Split(s, sep) == [head] + Split(tail, sep);
      assert pieces == [head] + pieces[1..];
    }
  }
}
