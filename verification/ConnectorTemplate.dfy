/** The connector script's two awk functions and its three substitutions: values are escaped as JSON strings
    and put in the place of their placeholders in the configuration template. */
module ConnectorTemplate {
  import opened Wrappers

  const BACKSPACE := '\U{0008}'
  const FORM_FEED := '\U{000C}'

  const USER := "__DB_USER__"
  const PASSWORD := "__DB_PASSWORD__"
  const NAME := "__DB_NAME__"

  // ----- jsonescape -----

  function EscapeChar(c: char): string {
    if c == '\\' then "\\\\"
    else if c == '\"' then "\\\""
    else if c == '\n' then "\\n"
    else if c == '\t' then "\\t"
    else if c == '\r' then "\\r"
    else if c == BACKSPACE then "\\b"
    else if c == FORM_FEED then "\\f"
    else [c]
  }

  function Escape(s: string): string {
    if s == "" then "" else EscapeChar(s[0]) + Escape(s[1..])
  }

  lemma EscapeHead(a: string, b: string)
    requires a != ""
    ensures Escape(a + b) == EscapeChar(a[0]) + Escape(a[1..] + b)
  {
    hide EscapeChar;
    assert (a + b)[1..] == a[1..] + b;
  }

  lemma Associate(a: string, b: string, c: string)
    ensures a + (b + c) == (a + b) + c
  {
  }

  lemma {:induction false} EscapeConcat(a: string, b: string)
    ensures Escape(a + b) == Escape(a) + Escape(b)
  {
    hide EscapeChar;
    if a == "" {
      assert a + b == b;
    } else {
      EscapeConcat(a[1..], b);
      EscapeHead(a, b);
      Associate(EscapeChar(a[0]), Escape(a[1..]), Escape(b));
    }
  }

  method JsonEscape(s: string) returns (out: string)
    ensures out == Escape(s)
  {
    out := "";
    for i := 0 to |s|
      invariant out == Escape(s[..i])
    {
      EscapeConcat(s[..i], [s[i]]);
      assert s[..i + 1] == s[..i] + [s[i]];
      assert Escape([s[i]]) == EscapeChar(s[i]);
      out := out + EscapeChar(s[i]);
    }
    assert s[..|s|] == s;
  }

  // ----- reading a JSON string, section 7 of RFC 8259 -----

  function HexDigit(c: char): Option<nat> {
    if '0' <= c <= '9' then Some((c - '0') as nat)
    else if 'a' <= c <= 'f' then Some((c - 'a') as nat + 10)
    else if 'A' <= c <= 'F' then Some((c - 'A') as nat + 10)
    else None
  }

  function HexNumber(s: string): Option<nat> {
    if s == "" then Some(0)
    else
      var high, low := HexNumber(s[..|s| - 1]), HexDigit(s[|s| - 1]);
      if high.Some? && low.Some? then Some(16 * high.value + low.value) else None
  }

  /** The character after a backslash stands for this one; \u is read separately. */
  function Unescape(c: char): Option<char> {
    if c == '\"' || c == '\\' || c == '/' then Some(c)
    else if c == 'b' then Some(BACKSPACE)
    else if c == 'f' then Some(FORM_FEED)
    else if c == 'n' then Some('\n')
    else if c == 'r' then Some('\r')
    else if c == 't' then Some('\t')
    else None
  }

  function PairedChar(high: nat, low: nat): char
    requires 0xD800 <= high < 0xDC00 <= low < 0xE000
  {
    (0x1_0000 + (high - 0xD800) * 0x400 + (low - 0xDC00)) as char
  }

  /** `s` begins just after an opening quote: the value, and what follows the closing quote. Two \u escapes
      that form a surrogate pair are one character; a lone surrogate is none and is refused. */
  function Decode(s: string): Option<(string, string)>
    decreases |s|
  {
    if s == "" then None
    else if s[0] == '\"' then Some(("", s[1..]))
    else if s[0] == '\\' then
      if |s| >= 6 && s[1] == 'u' then
        var code := HexNumber(s[2..6]);
        if code.Some? && (code.value < 0xD800 || 0xE000 <= code.value < 0x1_0000) then
          Prepend(code.value as char, Decode(s[6..]))
        else if code.Some? && code.value < 0xDC00 && |s| >= 12 && s[6..8] == "\\u" then
          var low := HexNumber(s[8..12]);
          if low.Some? && 0xDC00 <= low.value < 0xE000 then
            Prepend(PairedChar(code.value, low.value), Decode(s[12..]))
          else None
        else None
      else if |s| >= 2 && Unescape(s[1]).Some? then Prepend(Unescape(s[1]).value, Decode(s[2..]))
      else None
    else if s[0] < ' ' then None
    else Prepend(s[0], Decode(s[1..]))
  }

  function Prepend(c: char, rest: Option<(string, string)>): Option<(string, string)> {
    match rest
    case None => None
    case Some((value, after)) => Some(([c] + value, after))
  }

  predicate Escapable(c: char) {
    c >= ' ' || c == '\n' || c == '\t' || c == '\r' || c == BACKSPACE || c == FORM_FEED
  }

  ghost predicate IsEscapable(value: string) {
    forall c :: c in value ==> Escapable(c)
  }

  lemma DecodeEscapedChar(c: char, rest: string)
    ensures Decode(EscapeChar(c) + rest) ==
            if Escapable(c) || c == '\\' || c == '\"' then Prepend(c, Decode(rest)) else None
  {
    var s := EscapeChar(c) + rest;
    assert s[|EscapeChar(c)|..] == rest;
  }

  /** Reading back what jsonescape wrote returns the value and stops at the template's own quote, for exactly
      the values whose control characters are \n \t \r \b \f; any other control character is refused. */
  lemma {:induction false} EscapeRoundTrip(value: string, rest: string)
    ensures Decode(Escape(value) + "\"" + rest) == if IsEscapable(value) then Some((value, rest)) else None
  {
    if value == "" {
      assert Escape(value) + "\"" + rest == "\"" + rest;
      assert ("\"" + rest)[1..] == rest;
    } else {
      EscapeRoundTrip(value[1..], rest);
      var tail := Escape(value[1..]) + "\"" + rest;
      assert Escape(value) + "\"" + rest == EscapeChar(value[0]) + tail;
      DecodeEscapedChar(value[0], tail);
      assert value == [value[0]] + value[1..];
      if Escapable(value[0]) {
        assert IsEscapable(value) <==> IsEscapable(value[1..]);
      }
    }
  }

  // ----- replace -----

  predicate OccursAt(s: string, ph: string, i: int) {
    0 <= i && i + |ph| <= |s| && s[i..i + |ph|] == ph
  }

  ghost predicate Contains(s: string, ph: string) {
    exists i :: OccursAt(s, ph, i)
  }

  /** Where the placeholder first occurs, or -1. */
  function IndexOf(s: string, ph: string): int {
    if |s| < |ph| then -1
    else if s[..|ph|] == ph then 0
    else if s == "" then -1
    else
      var i := IndexOf(s[1..], ph);
      if i < 0 then -1 else i + 1
  }

  lemma OccursInTail(s: string, head: string, tail: string, ph: string, k: int)
    requires s == head + tail && k >= |head|
    ensures OccursAt(s, ph, k) <==> OccursAt(tail, ph, k - |head|)
  {
    if k + |ph| <= |s| {
      assert s[k..k + |ph|] == tail[k - |head|..k - |head| + |ph|];
    }
  }

  lemma {:induction false} IndexOfRange(s: string, ph: string)
    ensures IndexOf(s, ph) >= -1
  {
    if s != "" {
      IndexOfRange(s[1..], ph);
    }
  }

  lemma {:induction false} IndexOfIsFirst(s: string, ph: string)
    ensures IndexOf(s, ph) >= 0 ==> OccursAt(s, ph, IndexOf(s, ph))
    ensures forall j {:trigger OccursAt(s, ph, j)} :: OccursAt(s, ph, j) ==> 0 <= IndexOf(s, ph) <= j
  {
    if |s| >= |ph| && s[..|ph|] != ph && s != "" {
      IndexOfIsFirst(s[1..], ph);
      forall i | i >= 0 ensures OccursAt(s, ph, i + 1) <==> OccursAt(s[1..], ph, i) {
        OccursInTail(s, [s[0]], s[1..], ph, i + 1);
      }
      forall j | OccursAt(s, ph, j) ensures 0 <= IndexOf(s, ph) <= j {
        assert j > 0;
        assert OccursAt(s[1..], ph, j - 1);
      }
    }
  }

  /** Every occurrence, left to right, is replaced; what was put in is not searched again. */
  function Replaced(s: string, ph: string, val: string): string
    requires ph != ""
    decreases |s|
  {
    var i := IndexOf(s, ph);
    if i < 0 then s
    else
      IndexOfIsFirst(s, ph);
      s[..i] + val + Replaced(s[i + |ph|..], ph, val)
  }

  method Replace(text: string, ph: string, val: string) returns (r: string)
    requires ph != ""
    ensures r == Replaced(text, ph, val)
  {
    hide IndexOf, Replaced;
    var s, out := text, "";
    var i := IndexOf(s, ph);
    IndexOfIsFirst(s, ph);
    while i >= 0
      invariant i == IndexOf(s, ph)
      invariant i >= 0 ==> OccursAt(s, ph, i)
      invariant out + Replaced(s, ph, val) == Replaced(text, ph, val)
      decreases |s|
    {
      Regroup("", out, s[..i], val, Replaced(s[i + |ph|..], ph, val));
      ReplacedStep(s, ph, val);
      out := out + s[..i] + val;
      s := s[i + |ph|..];
      i := IndexOf(s, ph);
      IndexOfIsFirst(s, ph);
    }
    NoIndexNoChange(s, ph, val);
    r := out + s;
  }

  lemma ReplacedStep(s: string, ph: string, val: string)
    requires ph != "" && IndexOf(s, ph) >= 0 && OccursAt(s, ph, IndexOf(s, ph))
    ensures Replaced(s, ph, val) == s[..IndexOf(s, ph)] + val + Replaced(s[IndexOf(s, ph) + |ph|..], ph, val)
  {
  }

  lemma Regroup(a: string, b: string, c: string, d: string, e: string)
    ensures a + b + (c + d + e) == (a + b + c) + d + e
  {
  }

  lemma NoOccurrenceNoChange(s: string, ph: string, val: string)
    requires ph != "" && !Contains(s, ph)
    ensures Replaced(s, ph, val) == s
  {
    IndexOfIsFirst(s, ph);
  }

  /** An occurrence never reaches across a quote, so replacing works on both sides of one separately. */
  lemma {:induction false} ReplaceAcrossQuote(x: string, y: string, ph: string, val: string)
    requires ph != "" && '\"' !in ph
    ensures Replaced(x + "\"" + y, ph, val) == Replaced(x, ph, val) + "\"" + Replaced(y, ph, val)
    decreases |x|
  {
    hide Replaced, IndexOf;
    IndexAcrossQuote(x, y, ph);
    IndexOfIsFirst(x, ph);
    if IndexOf(x, ph) >= 0 {
      ReplaceAcrossQuote(x[IndexOf(x, ph) + |ph|..], y, ph, val);
      ReplaceBeforeQuote(x, y, ph, val);
    } else {
      ReplaceAfterQuote(x, y, ph, val);
    }
  }

  lemma ReplaceBeforeQuote(x: string, y: string, ph: string, val: string)
    requires ph != "" && IndexOf(x, ph) >= 0 && IndexOf(x + "\"" + y, ph) == IndexOf(x, ph)
    requires OccursAt(x, ph, IndexOf(x, ph))
    requires var rest := x[IndexOf(x, ph) + |ph|..];
             Replaced(rest + "\"" + y, ph, val) == Replaced(rest, ph, val) + "\"" + Replaced(y, ph, val)
    ensures Replaced(x + "\"" + y, ph, val) == Replaced(x, ph, val) + "\"" + Replaced(y, ph, val)
  {
    hide Replaced;
    var i, q := IndexOf(x, ph), "\"";
    var rest := x[i + |ph|..];
    Regroup(x[..i], ph, rest, q, y);
    assert x == x[..i] + ph + rest;
    SplitAround(x + q + y, ph, val, x[..i], rest + q + y);
    SplitAround(x, ph, val, x[..i], rest);
    Regroup(x[..i], val, Replaced(rest, ph, val), q, Replaced(y, ph, val));
  }

  lemma ReplaceAfterQuote(x: string, y: string, ph: string, val: string)
    requires ph != "" && '\"' !in ph && IndexOf(x, ph) < 0
    ensures Replaced(x + "\"" + y, ph, val) == Replaced(x, ph, val) + "\"" + Replaced(y, ph, val)
  {
    IndexAcrossQuote(x, y, ph);
    IndexOfIsFirst(y, ph);
    var j, q := IndexOf(y, ph), "\"";
    if j >= 0 {
      hide Replaced;
      NoIndexNoChange(x, ph, val);
      var rest := y[j + |ph|..];
      assert y == y[..j] + ph + rest;
      Regroup(x, q, y[..j], ph, rest);
      SplitAround(x + q + y, ph, val, x + q + y[..j], rest);
      SplitAround(y, ph, val, y[..j], rest);
      Regroup(x, q, y[..j], val, Replaced(rest, ph, val));
    }
  }

  lemma NoIndexNoChange(s: string, ph: string, val: string)
    requires ph != "" && IndexOf(s, ph) < 0
    ensures Replaced(s, ph, val) == s
  {
  }

  lemma SplitAround(s: string, ph: string, val: string, before: string, after: string)
    requires ph != "" && s == before + ph + after && IndexOf(s, ph) == |before|
    ensures Replaced(s, ph, val) == before + val + Replaced(after, ph, val)
  {
    assert s[..|before|] == before;
    assert s[|before| + |ph|..] == after;
  }

  lemma QuoteIsNotCovered(s: string, ph: string, k: int, p: nat)
    requires OccursAt(s, ph, k) && p < |s| && s[p] == '\"' && '\"' !in ph
    ensures k + |ph| <= p || p < k
  {
    forall i | k <= i < k + |ph| ensures s[i] in ph {
      assert ph[i - k] == s[i];
    }
  }

  lemma OccursInPrefix(x: string, tail: string, ph: string, i: int)
    requires OccursAt(x, ph, i)
    ensures OccursAt(x + tail, ph, i)
  {
    assert (x + tail)[i..i + |ph|] == x[i..i + |ph|];
  }

  lemma OccursOnOneSide(x: string, y: string, ph: string, k: int)
    requires ph != "" && '\"' !in ph && OccursAt(x + "\"" + y, ph, k)
    ensures OccursAt(x, ph, k) || OccursAt(y, ph, k - |x| - 1)
  {
    var s := x + "\"" + y;
    QuoteIsNotCovered(s, ph, k, |x|);
    if k + |ph| <= |x| {
      assert s[k..k + |ph|] == x[k..k + |ph|];
    } else {
      assert s[k..k + |ph|] == y[k - |x| - 1..k - |x| - 1 + |ph|];
    }
  }

  lemma IndexAcrossQuote(x: string, y: string, ph: string)
    requires ph != "" && '\"' !in ph
    ensures IndexOf(x + "\"" + y, ph) ==
            if IndexOf(x, ph) >= 0 then IndexOf(x, ph)
            else if IndexOf(y, ph) >= 0 then |x| + 1 + IndexOf(y, ph)
            else -1
  {
    var s := x + "\"" + y;
    hide OccursAt, IndexOf;
    IndexOfRange(s, ph);
    IndexOfIsFirst(s, ph);
    IndexOfIsFirst(x, ph);
    IndexOfIsFirst(y, ph);
    forall i | OccursAt(x, ph, i) ensures OccursAt(s, ph, i) {
      OccursInPrefix(x, "\"" + y, ph, i);
      assert x + ("\"" + y) == s;
    }
    forall j | OccursAt(y, ph, j) ensures OccursAt(s, ph, |x| + 1 + j) {
      OccursInTail(s, x + "\"", y, ph, |x| + 1 + j);
    }
    forall k | OccursAt(s, ph, k) ensures OccursAt(x, ph, k) || OccursAt(y, ph, k - |x| - 1) {
      OccursOnOneSide(x, y, ph, k);
    }
    if IndexOf(x, ph) >= 0 {
      assert OccursAt(s, ph, IndexOf(x, ph));
    } else if IndexOf(y, ph) >= 0 {
      assert OccursAt(s, ph, |x| + 1 + IndexOf(y, ph));
    }
  }

  // ----- placeholders inside escaped values -----

  /** Placeholders are made of capitals and underscores, which escaping neither changes nor produces. */
  predicate PlainChar(c: char) {
    'A' <= c <= 'Z' || c == '_'
  }

  predicate IsPlain(s: string) {
    forall i :: 0 <= i < |s| ==> PlainChar(s[i])
  }

  lemma {:induction false} PlainEscapesToItself(s: string)
    requires IsPlain(s)
    ensures Escape(s) == s
  {
    if s != "" {
      PlainEscapesToItself(s[1..]);
    }
  }

  lemma {:induction false} PlainPrefix(v: string, ph: string)
    requires IsPlain(ph) && ph <= Escape(v)
    ensures ph <= v
  {
    if ph != "" {
      assert v != "";
      assert ph[0] == Escape(v)[0] == EscapeChar(v[0])[0];
      assert EscapeChar(v[0]) == [v[0]];
      assert Escape(v)[1..] == Escape(v[1..]);
      PlainPrefix(v[1..], ph[1..]);
    }
  }

  lemma ReplaceAtFront(ph: string, after: string, val: string)
    requires ph != ""
    ensures Replaced(ph + after, ph, val) == val + Replaced(after, ph, val)
  {
    hide Replaced;
    assert OccursAt(ph + after, ph, 0) by {
      assert (ph + after)[0..|ph|] == ph;
    }
    IndexOfIsFirst(ph + after, ph);
    assert ph + after == "" + ph + after;
    SplitAround(ph + after, ph, val, "", after);
    assert "" + val + Replaced(after, ph, val) == val + Replaced(after, ph, val);
  }

  lemma SkipFirstIndex(s: string, ph: string)
    requires s != "" && !(ph <= s)
    ensures IndexOf(s, ph) == if IndexOf(s[1..], ph) < 0 then -1 else IndexOf(s[1..], ph) + 1
  {
    if |s| < |ph| {
      IndexOfIsFirst(s[1..], ph);
      IndexOfRange(s[1..], ph);
    } else {
      assert s[..|ph|] != ph;
    }
  }

  lemma ReplaceSkipsFirst(s: string, ph: string, val: string)
    requires ph != "" && s != "" && !(ph <= s)
    ensures Replaced(s, ph, val) == [s[0]] + Replaced(s[1..], ph, val)
  {
    hide Replaced;
    SkipFirstIndex(s, ph);
    var i := IndexOf(s[1..], ph);
    if i >= 0 {
      OccurrenceSplits(s[1..], ph);
      SplitAfterFirst(s, ph, val, s[1..][..i], s[1..][i + |ph|..]);
    } else {
      NoIndexNoChange(s, ph, val);
      NoIndexNoChange(s[1..], ph, val);
    }
  }

  lemma OccurrenceSplits(s: string, ph: string)
    requires IndexOf(s, ph) >= 0
    ensures IndexOf(s, ph) + |ph| <= |s|
    ensures s == s[..IndexOf(s, ph)] + ph + s[IndexOf(s, ph) + |ph|..]
  {
    IndexOfIsFirst(s, ph);
    hide IndexOf;
  }

  lemma SplitAfterFirst(s: string, ph: string, val: string, before: string, after: string)
    requires ph != "" && s != "" && s[1..] == before + ph + after
    requires IndexOf(s[1..], ph) == |before| && IndexOf(s, ph) == |before| + 1
    ensures Replaced(s, ph, val) == [s[0]] + Replaced(s[1..], ph, val)
  {
    hide Replaced, IndexOf;
    SplitAround(s[1..], ph, val, before, after);
    assert s == ([s[0]] + before) + ph + after;
    SplitAround(s, ph, val, [s[0]] + before, after);
    assert ([s[0]] + before) + val + Replaced(after, ph, val) == [s[0]] + (before + val + Replaced(after, ph, val));
  }

  lemma NotAPrefix(s: string, ph: string)
    requires ph != "" && s != "" && s[0] != ph[0]
    ensures !(ph <= s)
  {
  }

  lemma ReplaceSkipsEscape(c: char, rest: string, ph: string, val: string)
    requires IsPlain(ph) && ph != "" && |EscapeChar(c)| == 2
    ensures Replaced(EscapeChar(c) + rest, ph, val) == EscapeChar(c) + Replaced(rest, ph, val)
  {
    hide Replaced;
    var s := EscapeChar(c) + rest;
    assert PlainChar(ph[0]);
    NotAPrefix(s, ph);
    ReplaceSkipsFirst(s, ph, val);
    assert s[1..] == [EscapeChar(c)[1]] + rest;
    NotAPrefix(s[1..], ph);
    ReplaceSkipsFirst(s[1..], ph, val);
    assert s[1..][1..] == rest;
    assert [s[0]] + ([s[1]] + Replaced(rest, ph, val)) == EscapeChar(c) + Replaced(rest, ph, val);
  }

  /** Replacing in the escaped text is replacing in the text, escaped. */
  lemma {:induction false} EscapeCommutesWithReplace(v: string, ph: string, x: string)
    requires IsPlain(ph) && ph != ""
    ensures Replaced(Escape(v), ph, Escape(x)) == Escape(Replaced(v, ph, x))
    decreases |v|
  {
    hide Replaced, EscapeChar;
    if ph <= v {
      var after := v[|ph|..];
      assert v == ph + after;
      EscapeCommutesWithReplace(after, ph, x);
      ReplaceAtFront(ph, after, x);
      EscapeConcat(x, Replaced(after, ph, x));
      EscapeConcat(ph, after);
      PlainEscapesToItself(ph);
      ReplaceAtFront(ph, Escape(after), Escape(x));
    } else if v == "" {
      NoIndexNoChange("", ph, x);
      NoIndexNoChange("", ph, Escape(x));
    } else {
      EscapeCommutesWithReplace(v[1..], ph, x);
      ReplaceSkipsFirst(v, ph, x);
      EscapeConcat([v[0]], Replaced(v[1..], ph, x));
      EscapeOfOne(v[0]);
      EscapedSkip(v, ph, Escape(x));
    }
  }

  /** An escaped value contains a placeholder exactly when the value does. */
  lemma EscapeKeepsContains(v: string, ph: string)
    requires IsPlain(ph) && ph != ""
    ensures Contains(Escape(v), ph) <==> Contains(v, ph)
  {
    hide Replaced, Contains;
    EscapeCommutesWithReplace(v, ph, "");
    UnchangedIff(v, ph, "");
    UnchangedIff(Escape(v), ph, "");
    EscapeInjective(Replaced(v, ph, ""), v);
    assert Escape("") == "";
  }

  lemma EscapeOfOne(c: char)
    ensures Escape([c]) == EscapeChar(c)
    ensures EscapeChar(c) == [c] || |EscapeChar(c)| == 2
  {
    assert Escape([c]) == EscapeChar(c) + Escape([c][1..]);
  }

  lemma EscapedSkip(v: string, ph: string, val: string)
    requires IsPlain(ph) && ph != "" && v != "" && !(ph <= v)
    ensures Replaced(Escape(v), ph, val) == EscapeChar(v[0]) + Replaced(Escape(v[1..]), ph, val)
  {
    hide Replaced, EscapeChar;
    var rest := Escape(v[1..]);
    EscapeOfOne(v[0]);
    if EscapeChar(v[0]) == [v[0]] {
      if ph <= Escape(v) {
        PlainPrefix(v, ph);
        assert false;
      }
      ReplaceSkipsFirst(Escape(v), ph, val);
      assert Escape(v)[1..] == rest;
    } else {
      ReplaceSkipsEscape(v[0], rest, ph, val);
    }
  }

  lemma SameFirstEscape(x: char, xs: string, y: char, ys: string)
    requires EscapeChar(x) + xs == EscapeChar(y) + ys
    ensures x == y && xs == ys
  {
    var s, t := EscapeChar(x) + xs, EscapeChar(y) + ys;
    assert s[0] == EscapeChar(x)[0] && t[0] == EscapeChar(y)[0];
    if |EscapeChar(x)| == 2 {
      assert s[1] == EscapeChar(x)[1] && t[1] == EscapeChar(y)[1];
    }
    assert xs == s[|EscapeChar(x)|..] && ys == t[|EscapeChar(y)|..];
  }

  lemma {:induction false} EscapeInjective(a: string, b: string)
    ensures Escape(a) == Escape(b) <==> a == b
  {
    if Escape(a) == Escape(b) && a != "" && b != "" {
      SameFirstEscape(a[0], Escape(a[1..]), b[0], Escape(b[1..]));
      EscapeInjective(a[1..], b[1..]);
      assert a == [a[0]] + a[1..] && b == [b[0]] + b[1..];
    }
  }

  // ----- the three substitutions -----

  /** A template in which each placeholder stands alone between quotes. */
  function Template(a: string, user: string, b: string, password: string, c: string, name: string, d: string): string {
    a + "\"" + (user + "\"" + (b + "\"" + (password + "\"" + (c + "\"" + (name + "\"" + d)))))
  }

  /** None of the text around the placeholders contains one. */
  ghost predicate IsFree(part: string) {
    !Contains(part, USER) && !Contains(part, PASSWORD) && !Contains(part, NAME)
  }

  function Substituted(t: string, user: string, password: string, name: string): string {
    Replaced(Replaced(Replaced(t, USER, Escape(user)), PASSWORD, Escape(password)), NAME, Escape(name))
  }

  method Substitute(t: string, user: string, password: string, name: string) returns (r: string)
    ensures r == Substituted(t, user, password, name)
  {
    var u := JsonEscape(user);
    r := Replace(t, USER, u);
    var p := JsonEscape(password);
    r := Replace(r, PASSWORD, p);
    var n := JsonEscape(name);
    r := Replace(r, NAME, n);
  }

  lemma ReplaceInTemplate(a: string, user: string, b: string, password: string, c: string, name: string, d: string,
                          ph: string, val: string)
    requires ph != "" && '\"' !in ph
    requires !Contains(a, ph) && !Contains(b, ph) && !Contains(c, ph) && !Contains(d, ph)
    ensures Replaced(Template(a, user, b, password, c, name, d), ph, val) ==
            Template(a, Replaced(user, ph, val), b, Replaced(password, ph, val), c, Replaced(name, ph, val), d)
  {
    NoOccurrenceNoChange(a, ph, val);
    NoOccurrenceNoChange(b, ph, val);
    NoOccurrenceNoChange(c, ph, val);
    NoOccurrenceNoChange(d, ph, val);
    var t5 := name + "\"" + d;
    var t4 := c + "\"" + t5;
    var t3 := password + "\"" + t4;
    var t2 := b + "\"" + t3;
    var t1 := user + "\"" + t2;
    ReplaceAcrossQuote(a, t1, ph, val);
    ReplaceAcrossQuote(user, t2, ph, val);
    ReplaceAcrossQuote(b, t3, ph, val);
    ReplaceAcrossQuote(password, t4, ph, val);
    ReplaceAcrossQuote(c, t5, ph, val);
    ReplaceAcrossQuote(name, d, ph, val);
  }

  lemma ReplaceWhole(ph: string, val: string)
    requires ph != ""
    ensures Replaced(ph, ph, val) == val
  {
    ReplaceAtFront(ph, "", val);
    assert ph + "" == ph;
  }

  lemma LacksChar(s: string, ph: string, k: nat)
    requires k < |ph| && ph[k] !in s
    ensures !Contains(s, ph)
  {
    forall i ensures !OccursAt(s, ph, i) {
      if 0 <= i && i + |ph| <= |s| {
        assert s[i..i + |ph|][k] == s[i + k];
      }
    }
  }

  lemma PlaceholdersDiffer()
    ensures !Contains(PASSWORD, USER) && !Contains(NAME, USER) && !Contains(NAME, PASSWORD)
    ensures IsPlain(USER) && IsPlain(PASSWORD) && IsPlain(NAME)
  {
    LacksChar(PASSWORD, USER, 5);
    LacksChar(NAME, USER, 5);
    LacksChar(NAME, PASSWORD, 5);
  }

  /** What the password field ends up as: the escaped password, rewritten by the substitution after it. */
  function PasswordField(password: string, name: string): string {
    Replaced(Escape(password), NAME, Escape(name))
  }

  /** What the user field ends up as: the escaped user, rewritten by the two substitutions after it. */
  function UserField(user: string, password: string, name: string): string {
    Replaced(Replaced(Escape(user), PASSWORD, Escape(password)), NAME, Escape(name))
  }

  /** For all values: each substitution fills its own field, and touches besides it only the values that were
      put in earlier. */
  lemma FieldsAfterSubstitution(a: string, b: string, c: string, d: string,
                                user: string, password: string, name: string)
    requires IsFree(a) && IsFree(b) && IsFree(c) && IsFree(d)
    ensures Substituted(Template(a, USER, b, PASSWORD, c, NAME, d), user, password, name) ==
            Template(a, UserField(user, password, name), b, PasswordField(password, name), c, Escape(name), d)
  {
    PlaceholdersDiffer();
    var u, p, n := Escape(user), Escape(password), Escape(name);
    ReplaceInTemplate(a, USER, b, PASSWORD, c, NAME, d, USER, u);
    ReplaceWhole(USER, u);
    NoOccurrenceNoChange(PASSWORD, USER, u);
    NoOccurrenceNoChange(NAME, USER, u);
    ReplaceInTemplate(a, u, b, PASSWORD, c, NAME, d, PASSWORD, p);
    ReplaceWhole(PASSWORD, p);
    NoOccurrenceNoChange(NAME, PASSWORD, p);
    ReplaceInTemplate(a, Replaced(u, PASSWORD, p), b, p, c, NAME, d, NAME, n);
    ReplaceWhole(NAME, n);
  }

  /** The values as the later substitutions leave them. */
  function RewrittenPassword(password: string, name: string): string {
    Replaced(password, NAME, name)
  }

  function RewrittenUser(user: string, password: string, name: string): string {
    Replaced(Replaced(user, PASSWORD, password), NAME, name)
  }

  /** The fields hold the escapes of the rewritten values. */
  lemma FieldsAreEscapes(user: string, password: string, name: string)
    ensures PasswordField(password, name) == Escape(RewrittenPassword(password, name))
    ensures UserField(user, password, name) == Escape(RewrittenUser(user, password, name))
  {
    PlaceholdersDiffer();
    EscapeCommutesWithReplace(password, NAME, name);
    EscapeCommutesWithReplace(user, PASSWORD, password);
    EscapeCommutesWithReplace(Replaced(user, PASSWORD, password), NAME, name);
  }

  datatype Fields = Fields(user: string, password: string, name: string, rest: string)

  /** The string value that starts right after `before` and an opening quote, and what follows it. */
  function ReadField(r: string, before: string): Option<(string, string)> {
    if before + "\"" <= r then Decode(r[|before| + 1..]) else None
  }

  /** Reads the three fields of a filled template, by section 7 of RFC 8259. */
  function ReadFields(r: string, a: string, b: string, c: string): Option<Fields> {
    match ReadField(r, a)
    case None => None
    case Some((user, afterUser)) =>
      match ReadField(afterUser, b)
      case None => None
      case Some((password, afterPassword)) =>
        match ReadField(afterPassword, c)
        case None => None
        case Some((name, rest)) => Some(Fields(user, password, name, rest))
  }

  lemma FieldReads(before: string, value: string, after: string)
    ensures ReadField(before + "\"" + (Escape(value) + "\"" + after), before) ==
            if IsEscapable(value) then Some((value, after)) else None
  {
    var r := before + "\"" + (Escape(value) + "\"" + after);
    EscapeRoundTrip(value, after);
    assert r[..|before| + 1] == before + "\"";
    assert r[|before| + 1..] == Escape(value) + "\"" + after;
  }

  /** For all values: the filled template reads as the rewritten values, each field ending at the template's own
      closing quote, or is refused because one of them has a control character without a short escape. */
  lemma FieldsRead(a: string, b: string, c: string, d: string, user: string, password: string, name: string)
    requires IsFree(a) && IsFree(b) && IsFree(c) && IsFree(d)
    ensures
      var u, p := RewrittenUser(user, password, name), RewrittenPassword(password, name);
      ReadFields(Substituted(Template(a, USER, b, PASSWORD, c, NAME, d), user, password, name), a, b, c) ==
      if IsEscapable(u) && IsEscapable(p) && IsEscapable(name) then Some(Fields(u, p, name, d)) else None
  {
    hide Replaced, Escape, Decode, ReadField;
    FieldsAfterSubstitution(a, b, c, d, user, password, name);
    FieldsAreEscapes(user, password, name);
    var u, p := RewrittenUser(user, password, name), RewrittenPassword(password, name);
    var afterPassword := c + "\"" + (Escape(name) + "\"" + d);
    var afterUser := b + "\"" + (Escape(p) + "\"" + afterPassword);
    FieldReads(c, name, d);
    FieldReads(b, p, afterPassword);
    FieldReads(a, u, afterUser);
  }

  /** Every field reads back as the value meant for it. */
  ghost predicate ReadsBack(a: string, b: string, c: string, d: string, user: string, password: string, name: string) {
    ReadFields(Substituted(Template(a, USER, b, PASSWORD, c, NAME, d), user, password, name), a, b, c) ==
    Some(Fields(user, password, name, d))
  }

  /** When no value contains a later placeholder, every field reads back, by RFC 8259, as the value meant for
      it, and reading stops at the template's own closing quote. */
  lemma EveryFieldReadsBack(a: string, b: string, c: string, d: string, user: string, password: string, name: string)
    requires IsFree(a) && IsFree(b) && IsFree(c) && IsFree(d)
    requires !Contains(user, PASSWORD) && !Contains(user, NAME) && !Contains(password, NAME)
    requires IsEscapable(user) && IsEscapable(password) && IsEscapable(name)
    ensures ReadsBack(a, b, c, d, user, password, name)
  {
    FieldsRead(a, b, c, d, user, password, name);
    NoOccurrenceNoChange(user, PASSWORD, password);
    NoOccurrenceNoChange(user, NAME, name);
    NoOccurrenceNoChange(password, NAME, name);
  }

  // ----- exactly when a later substitution leaves a field alone -----

  lemma {:induction false} ReplaceLength(s: string, ph: string, val: string)
    requires ph != ""
    ensures |val| >= |ph| ==> |Replaced(s, ph, val)| >= |s|
    ensures |val| <= |ph| ==> |Replaced(s, ph, val)| <= |s|
    decreases |s|
  {
    if IndexOf(s, ph) >= 0 {
      IndexOfIsFirst(s, ph);
      ReplaceLength(s[IndexOf(s, ph) + |ph|..], ph, val);
    }
  }

  lemma {:induction false} ReplaceBySelf(s: string, ph: string)
    requires ph != ""
    ensures Replaced(s, ph, ph) == s
    decreases |s|
  {
    var i := IndexOf(s, ph);
    if i >= 0 {
      IndexOfIsFirst(s, ph);
      ReplaceBySelf(s[i + |ph|..], ph);
      assert s == s[..i] + ph + s[i + |ph|..];
    }
  }

  /** A substitution leaves a text as it was if and only if the text lacks the placeholder or the value is the
      placeholder itself. */
  lemma UnchangedIff(s: string, ph: string, val: string)
    requires ph != ""
    ensures Replaced(s, ph, val) == s <==> !Contains(s, ph) || val == ph
  {
    IndexOfIsFirst(s, ph);
    var i := IndexOf(s, ph);
    if i < 0 {
      NoOccurrenceNoChange(s, ph, val);
    } else {
      assert Contains(s, ph);
      ReplaceBySelf(s, ph);
      var rest := s[i + |ph|..];
      ReplaceLength(rest, ph, val);
      var r := Replaced(s, ph, val);
      assert |r| == i + |val| + |Replaced(rest, ph, val)|;
      if r == s {
        assert |val| == |ph|;
        assert r[i..i + |val|] == val;
      }
    }
  }

  /** The password field is right if and only if the password does not contain the database placeholder, or
      the database is called exactly that. */
  lemma PasswordFieldIff(password: string, name: string)
    ensures PasswordField(password, name) == Escape(password) <==> !Contains(password, NAME) || name == NAME
  {
    FieldsAreEscapes("", password, name);
    EscapeInjective(RewrittenPassword(password, name), password);
    UnchangedIff(password, NAME, name);
  }

  /** No later substitution finds anything to change in the user, or it puts back what it finds. */
  ghost predicate UserIsSafe(user: string, password: string, name: string) {
    (!Contains(user, PASSWORD) || password == PASSWORD) && (!Contains(user, NAME) || name == NAME)
  }

  /** A total over the characters of a text; for instance its length, or how many underscores it has. */
  function Weight(s: string, w: char -> int): int {
    if s == "" then 0 else w(s[0]) + Weight(s[1..], w)
  }

  lemma {:induction false} WeightConcat(a: string, b: string, w: char -> int)
    ensures Weight(a + b, w) == Weight(a, w) + Weight(b, w)
  {
    if a == "" {
      assert a + b == b;
    } else {
      WeightConcat(a[1..], b, w);
      assert (a + b)[1..] == a[1..] + b;
    }
  }

  /** What each occurrence adds to the total when it is replaced. */
  function Gain(ph: string, val: string, w: char -> int): int {
    Weight(val, w) - Weight(ph, w)
  }

  lemma {:induction false} ReplaceWeight(s: string, ph: string, val: string, w: char -> int) returns (n: nat)
    requires ph != ""
    ensures Weight(Replaced(s, ph, val), w) == Weight(s, w) + n * Gain(ph, val, w)
    ensures n == 0 <==> !Contains(s, ph)
    decreases |s|
  {
    hide Weight, Replaced, IndexOf;
    IndexOfIsFirst(s, ph);
    var i := IndexOf(s, ph);
    if i < 0 {
      NoIndexNoChange(s, ph, val);
      n := 0;
    } else {
      var before, rest := s[..i], s[i + |ph|..];
      var m := ReplaceWeight(rest, ph, val, w);
      ReplacedStep(s, ph, val);
      assert s == before + ph + rest;
      assert Contains(s, ph);
      OneMoreGain(before, rest, Replaced(rest, ph, val), ph, val, w, m);
      n := m + 1;
    }
  }

  lemma OneMoreGain(before: string, rest: string, rest': string, ph: string, val: string, w: char -> int, m: nat)
    requires Weight(rest', w) == Weight(rest, w) + m * Gain(ph, val, w)
    ensures Weight(before + val + rest', w) == Weight(before + ph + rest, w) + (m + 1) * Gain(ph, val, w)
  {
    hide Weight;
    WeightConcat(before + ph, rest, w);
    WeightConcat(before, ph, w);
    WeightConcat(before + val, rest', w);
    WeightConcat(before, val, w);
    var g := Gain(ph, val, w);
    assert (m + 1) * g == m * g + g;
  }

  /** The two later substitutions do not work against each other: by some measure of texts they both add, or
      both take away, and one of them really does. Or one of them puts back what it finds. */
  predicate OneWay(password: string, name: string, w: char -> int) {
    var p, n := Gain(PASSWORD, password, w), Gain(NAME, name, w);
    || password == PASSWORD || name == NAME
    || (((p >= 0 && n >= 0) || (p <= 0 && n <= 0)) && (p != 0 || n != 0))
  }

  lemma NothingCancels(n1: nat, n2: nat, p: int, n: int)
    requires ((p >= 0 && n >= 0) || (p <= 0 && n <= 0)) && n1 * p + n2 * n == 0
    ensures (p == 0 || n1 == 0) && (n == 0 || n2 == 0)
  {
    if p >= 0 && n >= 0 {
      assert n1 * p >= 0 && n2 * n >= 0;
    } else {
      assert n1 * p <= 0 && n2 * n <= 0;
    }
  }

  /** A safe user is always left alone; and unless the two substitutions work against each other by every
      measure, no other user is. */
  lemma RewrittenUserIff(user: string, password: string, name: string, w: char -> int)
    ensures UserIsSafe(user, password, name) ==> RewrittenUser(user, password, name) == user
    ensures OneWay(password, name, w) ==>
              (RewrittenUser(user, password, name) == user <==> UserIsSafe(user, password, name))
  {
    hide Replaced, Weight, Contains;
    var t := Replaced(user, PASSWORD, password);
    UnchangedIff(user, PASSWORD, password);
    UnchangedIff(user, NAME, name);
    UnchangedIff(t, NAME, name);
    if OneWay(password, name, w) && RewrittenUser(user, password, name) == user
       && password != PASSWORD && name != NAME {
      var n1 := ReplaceWeight(user, PASSWORD, password, w);
      var n2 := ReplaceWeight(t, NAME, name, w);
      NothingCancels(n1, n2, Gain(PASSWORD, password, w), Gain(NAME, name, w));
    }
  }

  /** Exactly when the user field is right, for values whose substitutions do not work against each other. */
  lemma UserFieldIff(user: string, password: string, name: string, w: char -> int)
    requires OneWay(password, name, w)
    ensures UserField(user, password, name) == Escape(user) <==> UserIsSafe(user, password, name)
  {
    FieldsAreEscapes(user, password, name);
    EscapeInjective(RewrittenUser(user, password, name), user);
    RewrittenUserIff(user, password, name, w);
  }

  /** And exactly when the whole configuration reads back as it was meant. */
  lemma ReadsBackIff(a: string, b: string, c: string, d: string, user: string, password: string, name: string,
                     w: char -> int)
    requires IsFree(a) && IsFree(b) && IsFree(c) && IsFree(d) && OneWay(password, name, w)
    ensures ReadsBack(a, b, c, d, user, password, name) <==>
              && IsEscapable(user) && IsEscapable(password) && IsEscapable(name)
              && UserIsSafe(user, password, name) && (!Contains(password, NAME) || name == NAME)
  {
    FieldsRead(a, b, c, d, user, password, name);
    RewrittenUserIff(user, password, name, w);
    UnchangedIff(password, NAME, name);
  }

  function Underscores(s: string): nat {
    if s == "" then 0 else (if s[0] == '_' then 1 else 0) + Underscores(s[1..])
  }

  function OneIfUnderscore(c: char): int {
    if c == '_' then 1 else 0
  }

  lemma {:induction false} UnderscoresAreAWeight(s: string)
    ensures Underscores(s) == Weight(s, OneIfUnderscore)
  {
    if s != "" {
      UnderscoresAreAWeight(s[1..]);
    }
  }

  lemma UnderscoresConcat(a: string, b: string)
    ensures Underscores(a + b) == Underscores(a) + Underscores(b)
  {
    UnderscoresAreAWeight(a);
    UnderscoresAreAWeight(b);
    UnderscoresAreAWeight(a + b);
    WeightConcat(a, b, OneIfUnderscore);
  }

  lemma DbPrefixHasThree()
    ensures Underscores("__DB_") == 3 && Underscores("__") == 2
  {
    UnderscoresConcat("__D", "B_");
    assert Underscores("__D") == 2;
    assert Underscores("B_") == 1;
    assert Underscores("__") == 2;
  }

  lemma PasswordHasFive()
    ensures Underscores(PASSWORD) == 5
  {
    DbPrefixHasThree();
    UnderscoresConcat("__DB_", "PASSWORD__");
    UnderscoresConcat("PASSWORD", "__");
    UnderscoresConcat("PASS", "WORD");
    assert Underscores("PASS") == 0;
    assert Underscores("WORD") == 0;
  }

  lemma NameHasFive()
    ensures Underscores(NAME) == 5
  {
    DbPrefixHasThree();
    UnderscoresConcat("__DB_", "NAME__");
    UnderscoresConcat("NAME", "__");
    assert Underscores("NAME") == 0;
  }

  /** In plain terms: if the password and the database name have fewer than five underscores each, the user
      field is right if and only if the user contains neither of the two later placeholders. */
  lemma UserFieldIffFewUnderscores(user: string, password: string, name: string)
    requires Underscores(password) < 5 && Underscores(name) < 5
    ensures UserField(user, password, name) == Escape(user) <==> !Contains(user, PASSWORD) && !Contains(user, NAME)
  {
    PasswordHasFive();
    NameHasFive();
    hide Underscores;
    UnderscoresAreAWeight(password);
    UnderscoresAreAWeight(name);
    UnderscoresAreAWeight(PASSWORD);
    UnderscoresAreAWeight(NAME);
    UserFieldIff(user, password, name, OneIfUnderscore);
  }

  /** A user called like the password placeholder gets the password field's content instead of its name. */
  lemma UserNamedLikePlaceholder(password: string, name: string)
    ensures UserField(PASSWORD, password, name) == PasswordField(password, name)
  {
    PlaceholdersDiffer();
    PlainEscapesToItself(PASSWORD);
    ReplaceWhole(PASSWORD, Escape(password));
  }

  /** For instance with password "x" and database "y": the user field then holds the password. */
  lemma UserFieldCanBeWrong()
    ensures UserField(PASSWORD, "x", "y") == Escape("x") != Escape(PASSWORD)
  {
    UserNamedLikePlaceholder("x", "y");
    assert !Contains("x", NAME);
    PasswordFieldIff("x", "y");
    EscapeInjective("x", PASSWORD);
  }

  lemma TwoReplacements(first: string, rest: string, val: string, second: string, last: string)
    requires first != "" && second != "" && val + rest == second && !Contains(rest, first)
    ensures Replaced(Replaced(first + rest, first, val), second, last) == last
  {
    ReplaceAtFront(first, rest, val);
    NoOccurrenceNoChange(rest, first, val);
    ReplaceWhole(second, last);
  }

  lemma PlainConcat(a: string, b: string)
    requires IsPlain(a) && IsPlain(b)
    ensures IsPlain(a + b)
  {
  }

  /** Values that work against each other can undo each other's harm: here the user contains a later placeholder,
      and the two substitutions cancel out. */
  lemma SubstitutionsCanCancel()
    ensures Contains(PASSWORD + "NAME__", PASSWORD)
    ensures UserField(PASSWORD + "NAME__", "__DB_", PASSWORD + "NAME__") == Escape(PASSWORD + "NAME__")
  {
    var rest, val := "NAME__", "__DB_";
    assert IsPlain(rest) && IsPlain(val);
    assert val + rest == NAME;
    LacksChar(rest, PASSWORD, 5);
    CancelOut(rest, val);
  }

  lemma CancelOut(rest: string, val: string)
    requires IsPlain(rest) && IsPlain(val) && val + rest == NAME && !Contains(rest, PASSWORD)
    ensures Contains(PASSWORD + rest, PASSWORD)
    ensures UserField(PASSWORD + rest, val, PASSWORD + rest) == Escape(PASSWORD + rest)
  {
    PlaceholdersDiffer();
    PlainConcat(PASSWORD, rest);
    PlainEscapesToItself(PASSWORD + rest);
    PlainEscapesToItself(val);
    assert OccursAt(PASSWORD + rest, PASSWORD, 0);
    TwoReplacements(PASSWORD, rest, val, NAME, PASSWORD + rest);
  }
}
