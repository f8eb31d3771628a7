/** The static page script: HTML escaping of post fields, the colour
    channels of `hexToRgba`, the typed-text effect, the agent terminal's
    transcript and the post meta line. */
module AppScript {
  import opened Text
  import opened Wrappers

  // ---------------------------------------------------------------------
  // escapeHtml

  function EscapeChar(c: char): string
  {
    if c == '&' then "&amp;"
    else if c == '<' then "&lt;"
    else if c == '>' then "&gt;"
    else if c == '"' then "&quot;"
    else if c == '\'' then "&#039;"
    else [c]
  }

  /** `escapeHtml`: every character replaced by its entity, if it has one. */
  function EscapeHtml(s: string): string
  {
    if s == [] then [] else EscapeChar(s[0]) + EscapeHtml(s[1..])
  }

  predicate Markup(c: char)
  {
    c == '<' || c == '>' || c == '"' || c == '\''
  }

  /** Escaping works character by character. */
  lemma {:induction false} EscapeConcat(a: string, b: string)
    ensures EscapeHtml(a + b) == EscapeHtml(a) + EscapeHtml(b)
  {
    if a != [] {
      assert (a + b)[1..] == a[1..] + b;
      EscapeConcat(a[1..], b);
    } else {
      assert a + b == b;
    }
  }

  /** No markup character survives escaping. */
  lemma {:induction false} EscapeSafe(s: string)
    ensures forall k :: 0 <= k < |EscapeHtml(s)| ==> !Markup(EscapeHtml(s)[k])
  {
    if s != [] {
      EscapeSafe(s[1..]);
      var head, tail := EscapeChar(s[0]), EscapeHtml(s[1..]);
      forall k | 0 <= k < |head + tail| ensures !Markup((head + tail)[k]) {
        if k < |head| {
          assert (head + tail)[k] == head[k];
        } else {
          assert (head + tail)[k] == tail[k - |head|];
        }
      }
    }
  }

  /** A string with none of the five characters is left as it is. */
  lemma {:induction false} EscapeClean(s: string)
    requires forall k :: 0 <= k < |s| ==> !Markup(s[k]) && s[k] != '&'
    ensures EscapeHtml(s) == s
  {
    if s != [] {
      EscapeClean(s[1..]);
      assert [s[0]] + s[1..] == s;
    }
  }

  /** Escaping twice is not escaping once: an ampersand is escaped again. */
  lemma EscapeTwice()
    ensures EscapeHtml(EscapeHtml("&")) == "&amp;amp;"
    ensures EscapeHtml(EscapeHtml("&")) != EscapeHtml("&")
  {
    assert EscapeHtml("&") == "&amp;" by {
      assert "&"[1..] == [];
    }
    var e := "&amp;";
    assert EscapeHtml(e) == "&amp;" + EscapeHtml(e[1..]);
    EscapeClean(e[1..]);
  }

  /** Decoding the five entities, the reference inverse of escaping. */
  function Unescape(s: string): string
  {
    if s == [] then []
    else if |s| >= 5 && s[0] == '&' && s[1] == 'a' && s[2] == 'm' && s[3] == 'p' && s[4] == ';' then
      ['&'] + Unescape(s[5..])
    else if |s| >= 4 && s[0] == '&' && s[1] == 'l' && s[2] == 't' && s[3] == ';' then
      ['<'] + Unescape(s[4..])
    else if |s| >= 4 && s[0] == '&' && s[1] == 'g' && s[2] == 't' && s[3] == ';' then
      ['>'] + Unescape(s[4..])
    else if |s| >= 6 && s[0] == '&' && s[1] == 'q' && s[2] == 'u' && s[3] == 'o' && s[4] == 't' && s[5] == ';' then
      ['"'] + Unescape(s[6..])
    else if |s| >= 6 && s[0] == '&' && s[1] == '#' && s[2] == '0' && s[3] == '3' && s[4] == '9' && s[5] == ';' then
      ['\''] + Unescape(s[6..])
    else [s[0]] + Unescape(s[1..])
  }

  /** Escaping loses nothing: decoding the entities gives the text back. */
  lemma {:induction false} UnescapeEscape(s: string)
    ensures Unescape(EscapeHtml(s)) == s
  {
    if s != [] {
      UnescapeEscape(s[1..]);
      UnescapeHead(s[0], EscapeHtml(s[1..]));
      assert [s[0]] + s[1..] == s;
    }
  }

  lemma UnescapeHead(c: char, tail: string)
    ensures Unescape(EscapeChar(c) + tail) == [c] + Unescape(tail)
  {
    var e := EscapeChar(c) + tail;
    assert e[|EscapeChar(c)|..] == tail;
    if c == '&' {
      assert e[..5] == "&amp;";
    } else if c == '<' {
      assert e[..4] == "&lt;";
    } else if c == '>' {
      assert e[..4] == "&gt;";
    } else if c == '"' {
      assert e[..6] == "&quot;";
    } else if c == '\'' {
      assert e[..6] == "&#039;";
    } else {
      assert e[0] == c;
    }
  }

  // ---------------------------------------------------------------------
  // hexToRgba

  const TwoTo31 := 0x8000_0000
  const TwoTo32 := 0x1_0000_0000

  /** ECMAScript ToInt32: the value modulo 2^32, read as signed. */
  function ToInt32(v: int): (r: int)
    ensures -TwoTo31 <= r < TwoTo31 && (v - r) % TwoTo32 == 0
    ensures 0 <= v < TwoTo31 ==> r == v
  {
    var m := v % TwoTo32;
    if m >= TwoTo31 then m - TwoTo32 else m
  }

  datatype Rgb = Rgb(r: int, g: int, b: int)

  /** `(v>>16)&255`, `(v>>8)&255` and `v&255`: `>>` is an arithmetic shift
      of the 32-bit value (floor division), `& 255` its low eight bits. */
  function Channels(v: int): (c: Rgb)
    ensures 0 <= c.r < 256 && 0 <= c.g < 256 && 0 <= c.b < 256
  {
    var w := ToInt32(v);
    Rgb((w / 65536) % 256, (w / 256) % 256, w % 256)
  }

  /** A 24-bit value is its three channels put back together. */
  lemma ChannelsRecombine(v: int)
    requires 0 <= v < 0x100_0000
    ensures var c := Channels(v); c.r * 65536 + c.g * 256 + c.b == v
  {
    var c := Channels(v);
    assert c.r == v / 65536;
    var lo := v % 65536;
    assert v == 65536 * (v / 65536) + lo;
    assert v / 256 == 256 * (v / 65536) + lo / 256;
    assert c.g == lo / 256;
    assert c.b == lo % 256;
  }

  /** Three channels packed into 24 bits come back out unchanged. */
  lemma ChannelsOfPacked(v: int, r: int, g: int, b: int)
    requires 0 <= r < 256 && 0 <= g < 256 && 0 <= b < 256
    requires v == r * 65536 + g * 256 + b
    ensures Channels(v) == Rgb(r, g, b)
  {
    var w := g * 256 + b;
    assert 0 <= w < 65536;
    assert v / 65536 == r && v % 65536 == w;
    assert v / 256 == r * 256 + g;
    assert (r * 256 + g) % 256 == g;
    assert v % 256 == b;
  }

  predicate IsHexDigit(c: char)
  {
    '0' <= c <= '9' || 'a' <= c <= 'f' || 'A' <= c <= 'F'
  }

  function HexDigitValue(c: char): (n: nat)
    requires IsHexDigit(c)
    ensures n < 16
  {
    if '0' <= c <= '9' then c as int - '0' as int
    else if 'a' <= c <= 'f' then c as int - 'a' as int + 10
    else c as int - 'A' as int + 10
  }

  /** The leading hex digits of `s`: a prefix of hex digits that stops at
      the end or at a character that is not one. */
  function HexRun(s: string): (r: string)
    ensures r <= s && forall k :: 0 <= k < |r| ==> IsHexDigit(r[k])
    ensures |r| == |s| || !IsHexDigit(s[|r|])
  {
    if s != [] && IsHexDigit(s[0]) then [s[0]] + HexRun(s[1..]) else []
  }

  function HexNumber(digits: string): (n: nat)
    requires forall k :: 0 <= k < |digits| ==> IsHexDigit(digits[k])
  {
    if digits == [] then 0
    else 16 * HexNumber(digits[..|digits| - 1]) + HexDigitValue(digits[|digits| - 1])
  }

  /** `parseInt(s, 16)`: leading white space, an optional sign and an
      optional `0x`, then the longest run of hex digits; `None` is `NaN`. */
  function ParseHex(s: string): Option<int>
  {
    var t := TrimStart(s);
    var negative := t != [] && t[0] == '-';
    var run := HexRun(DropRadixPrefix(DropSign(t)));
    if run == [] then None
    else
      var n: int := HexNumber(run);
      Some(if negative then -n else n)
  }

  /** The text after an optional leading `-` or `+`. */
  function DropSign(t: string): string
  {
    if t != [] && (t[0] == '-' || t[0] == '+') then t[1..] else t
  }

  /** The text after an optional leading `0x` or `0X`. */
  function DropRadixPrefix(u: string): string
  {
    if |u| >= 2 && u[0] == '0' && (u[1] == 'x' || u[1] == 'X') then u[2..] else u
  }

  /** `hex.replace('#', '')`: the first `#` removed. */
  function DropHash(s: string): (r: string)
    ensures '#' !in s ==> r == s
  {
    if s == [] then []
    else if s[0] == '#' then s[1..]
    else [s[0]] + DropHash(s[1..])
  }

  /** The index of the first `#`. */
  function HashIndex(s: string): (i: nat)
    requires '#' in s
    ensures i < |s| && s[i] == '#' && '#' !in s[..i]
  {
    if s[0] == '#' then 0
    else
      assert '#' in s[1..] by {
        var j :| 0 <= j < |s| && s[j] == '#';
        assert s[1..][j - 1] == s[j];
      }
      var j := HashIndex(s[1..]);
      assert s[..j + 1] == [s[0]] + s[1..][..j];
      j + 1
  }

  /** Without a `#` nothing changes; otherwise the first `#` is removed and
      everything else kept. */
  lemma DropHashFirst(s: string)
    ensures '#' !in s ==> DropHash(s) == s
    ensures '#' in s ==> var i := HashIndex(s);
              DropHash(s) == s[..i] + s[i + 1..]
  {
    if '#' in s {
      DropHashAt(s, HashIndex(s));
    }
  }

  lemma {:induction false} DropHashAt(s: string, i: nat)
    requires i < |s| && s[i] == '#' && '#' !in s[..i]
    ensures DropHash(s) == s[..i] + s[i + 1..]
  {
    if i == 0 {
      assert s[..0] == [];
    } else {
      assert s[0] != '#' by { assert s[..i][0] == s[0]; }
      assert s[1..][..i - 1] == s[1..i];
      assert '#' !in s[1..][..i - 1] by { assert s[1..i] == s[..i][1..]; }
      DropHashAt(s[1..], i - 1);
      assert s[..i] == [s[0]] + s[1..][..i - 1];
      assert s[i + 1..] == s[1..][i..];
    }
  }

  /** The three channels `hexToRgba` prints; `NaN` shifts to 0. */
  function HexChannels(hex: string): Rgb
  {
    match ParseHex(DropHash(hex))
    case None => Rgb(0, 0, 0)
    case Some(v) => Channels(v)
  }

  lemma {:induction false} HexNumberAppend(a: string, b: string)
    requires forall k :: 0 <= k < |a| ==> IsHexDigit(a[k])
    requires forall k :: 0 <= k < |b| ==> IsHexDigit(b[k])
    ensures HexNumber(a + b) == HexNumber(a) * Pow16(|b|) + HexNumber(b)
    decreases |b|
  {
    if b == [] {
      assert a + b == a;
    } else {
      var init := b[..|b| - 1];
      var d := HexDigitValue(b[|b| - 1]);
      assert (a + b)[..|a + b| - 1] == a + init;
      HexNumberAppend(a, init);
      ShiftDigit(HexNumber(a), Pow16(|init|), HexNumber(init), d);
    }
  }

  lemma ShiftDigit(x: int, p: int, y: int, d: int)
    ensures 16 * (x * p + y) + d == x * (16 * p) + (16 * y + d)
  {
  }

  function Pow16(n: nat): nat
  {
    if n == 0 then 1 else 16 * Pow16(n - 1)
  }

  lemma PairBound(p: string)
    requires |p| == 2 && IsHexDigit(p[0]) && IsHexDigit(p[1])
    ensures HexNumber(p) == 16 * HexDigitValue(p[0]) + HexDigitValue(p[1]) < 256
  {
    var hi, lo := HexDigitValue(p[0]), HexDigitValue(p[1]);
    assert p[..1][..0] == [];
    assert HexNumber(p[..1]) == hi;
    assert HexNumber(p) == 16 * hi + lo;
  }

  /** `#rrggbb`: the channels are the three two-digit hex pairs. */
  lemma SixDigitColour(digits: string)
    requires |digits| == 6 && forall k :: 0 <= k < 6 ==> IsHexDigit(digits[k])
    ensures HexChannels(['#'] + digits)
            == Rgb(HexNumber(digits[..2]), HexNumber(digits[2..4]), HexNumber(digits[4..]))
  {
    var hex := ['#'] + digits;
    assert hex[1..] == digits;
    assert DropHash(hex) == digits;
    ParseDigits(digits);
    var v := HexNumber(digits) as int;
    assert HexChannels(hex) == Channels(v);
    SixDigitValue(digits);
    var r, g, b := HexNumber(digits[..2]), HexNumber(digits[2..4]), HexNumber(digits[4..]);
    ChannelsOfPacked(v, r, g, b);
  }

  /** A string of hex digits parses to its value. */
  lemma ParseDigits(digits: string)
    requires |digits| > 0 && forall k :: 0 <= k < |digits| ==> IsHexDigit(digits[k])
    ensures ParseHex(digits) == Some(HexNumber(digits) as int)
  {
    assert !IsSpace(digits[0]);
    assert TrimStart(digits) == digits;
    assert DropSign(digits) == digits;
    assert |digits| >= 2 ==> IsHexDigit(digits[1]);
    assert DropRadixPrefix(digits) == digits;
    HexRunAll(digits);
  }

  /** `parseInt(t, 16)` for white-space-free text made of an optional sign,
      an optional `0x`, a run of hex digits and anything that does not
      continue the run: the run's value, negated after a `-`. */
  lemma ParseLeadingRun(sign: string, prefix: string, digits: string, rest: string)
    requires sign == "" || sign == "-" || sign == "+"
    requires prefix == "" || prefix == "0x" || prefix == "0X"
    requires |digits| > 0 && forall k :: 0 <= k < |digits| ==> IsHexDigit(digits[k])
    requires rest == [] || !IsHexDigit(rest[0])
    requires prefix == "" && digits == "0" && rest != [] ==> rest[0] != 'x' && rest[0] != 'X'
    ensures ParseHex(sign + (prefix + (digits + rest)))
            == Some(if sign == "-" then -(HexNumber(digits) as int) else HexNumber(digits) as int)
  {
    RadixPrefixDropped(prefix, digits, rest);
    HexRunStops(digits, rest);
    var u := prefix + (digits + rest);
    assert u[0] == if prefix == "" then digits[0] else '0';
    SignedSteps(sign, u, digits + rest, digits);
  }

  /** An optional sign in front of text that starts with a hex digit. */
  lemma SignedSteps(sign: string, u: string, body: string, run: string)
    requires sign == "" || sign == "-" || sign == "+"
    requires u != [] && IsHexDigit(u[0])
    requires DropRadixPrefix(u) == body && HexRun(body) == run && run != []
    ensures ParseHex(sign + u) == Some(if sign == "-" then -(HexNumber(run) as int) else HexNumber(run) as int)
  {
    var s := sign + u;
    if sign == "" {
      assert s == u;
    } else {
      assert s[0] == sign[0] && s[1..] == u;
    }
    ParseSteps(s, u, body, run);
  }

  /** `ParseHex` through its stages, when no stage finds white space. */
  lemma ParseSteps(s: string, u: string, body: string, run: string)
    requires s != [] && !IsSpace(s[0])
    requires DropSign(s) == u && DropRadixPrefix(u) == body && HexRun(body) == run && run != []
    ensures ParseHex(s) == Some(if s[0] == '-' then -(HexNumber(run) as int) else HexNumber(run) as int)
  {
    assert TrimStart(s) == s;
  }

  /** The optional `0x` is dropped, and a run's own leading `0` is not
      taken for one. */
  lemma RadixPrefixDropped(prefix: string, digits: string, rest: string)
    requires prefix == "" || prefix == "0x" || prefix == "0X"
    requires |digits| > 0 && forall k :: 0 <= k < |digits| ==> IsHexDigit(digits[k])
    requires prefix == "" && digits == "0" && rest != [] ==> rest[0] != 'x' && rest[0] != 'X'
    ensures DropRadixPrefix(prefix + (digits + rest)) == digits + rest
  {
    var body := digits + rest;
    if prefix == "" {
      assert prefix + body == body;
      if |body| >= 2 && |digits| >= 2 {
        assert body[1] == digits[1];
      } else if |body| >= 2 {
        assert body[1] == rest[0];
      }
    } else {
      assert (prefix + body)[2..] == body;
    }
  }

  lemma {:induction false} HexRunStops(digits: string, rest: string)
    requires forall k :: 0 <= k < |digits| ==> IsHexDigit(digits[k])
    requires rest == [] || !IsHexDigit(rest[0])
    ensures HexRun(digits + rest) == digits
  {
    if digits == [] {
      assert digits + rest == rest;
    } else {
      assert (digits + rest)[1..] == digits[1..] + rest;
      HexRunStops(digits[1..], rest);
    }
  }

  lemma SixDigitValue(digits: string)
    requires |digits| == 6 && forall k :: 0 <= k < 6 ==> IsHexDigit(digits[k])
    ensures HexNumber(digits[..2]) < 256 && HexNumber(digits[2..4]) < 256 && HexNumber(digits[4..]) < 256
    ensures HexNumber(digits) == HexNumber(digits[..2]) * 65536 + HexNumber(digits[2..4]) * 256 + HexNumber(digits[4..])
  {
    var r, g, b := digits[..2], digits[2..4], digits[4..];
    assert digits == (r + g) + b;
    assert Pow16(2) == 256;
    HexNumberAppend(r, g);
    var rg := HexNumber(r) * 256 + HexNumber(g);
    assert HexNumber(r + g) == rg;
    HexNumberAppend(r + g, b);
    assert HexNumber(digits) == rg * 256 + HexNumber(b);
    PairBound(r);
    PairBound(g);
    PairBound(b);
  }

  lemma {:induction false} HexRunAll(s: string)
    requires forall k :: 0 <= k < |s| ==> IsHexDigit(s[k])
    ensures HexRun(s) == s
  {
    if s != [] {
      HexRunAll(s[1..]);
      assert [s[0]] + s[1..] == s;
    }
  }

  // ---------------------------------------------------------------------
  // initTyped

  /** The typed-text element: the full text, what is shown, the counter and
      whether the interval is still running. */
  class TypedText {
    var text: string
    var shown: string
    var i: nat
    var running: bool

    /** Between ticks the element shows the first `i` characters; once the
        interval stops it shows the whole text. */
    predicate Valid()
      reads this
    {
      i <= |text| && shown == text[..i] && (!running ==> shown == text) && (running ==> i < |text|)
    }

    /** `initTyped`: the text is the `data-text` attribute or else the
        element's content (`""` stands for an absent attribute). Under
        reduced motion the whole text is shown at once. */
    constructor (dataText: string, content: string, reducedMotion: bool)
      ensures text == (if dataText != "" then dataText else content)
      ensures text == "" || reducedMotion ==> shown == text && !running
      ensures text != "" && !reducedMotion ==> shown == "" && i == 0 && running
      ensures Valid()
    {
      text := if dataText != "" then dataText else content;
      i := 0;
      running := false;
      new;
      if text == "" {
        shown := content;
      } else if reducedMotion {
        shown := text;
        i := |text|;
      } else {
        shown := "";
        running := true;
      }
    }

    /** One interval callback: append the next character, stop at the end. */
    method Tick()
      requires Valid() && running
      modifies this
      ensures text == old(text) && i == old(i) + 1 && shown == text[..i]
      ensures running <==> i < |text|
      ensures Valid()
    {
      shown := shown + [text[i]];
      i := i + 1;
      if i >= |text| {
        running := false;
      }
    }

    /** Letting the interval run out shows the whole text. */
    method Finish()
      requires Valid()
      modifies this
      ensures text == old(text) && shown == text && !running && Valid()
    {
      while running
        invariant Valid() && text == old(text)
        decreases |text| - i
      {
        Tick();
      }
    }
  }

  // ---------------------------------------------------------------------
  // wireTerminal

  const Thinking := "agent: thinking..."
  const Responded := "\nagent: responded with a structured plan.\n"

  /** What one non-blank command adds to the output. */
  function Transcript(cmd: string): string
  {
    Echo(cmd) + Thinking + Responded
  }

  /** The echoed command line. */
  function Echo(cmd: string): string
  {
    "> " + cmd + "\n"
  }

  /** The transcript echoes the command after `> ` and ends with the
      agent's answer. */
  lemma TranscriptShape(cmd: string)
    ensures Transcript(cmd)[..2] == "> " && Transcript(cmd)[2..2 + |cmd|] == cmd
    ensures Transcript(cmd)[|Transcript(cmd)| - |Responded|..] == Responded
  {
    var t := Transcript(cmd);
    assert t == "> " + (cmd + ("\n" + Thinking + Responded));
  }

  class AgentTerminal {
    var output: string
    var input: string

    constructor ()
      ensures output == "" && input == ""
    {
      output, input := "", "";
    }

    /** `print`. */
    method Print(s: string)
      modifies this
      ensures output == old(output) + s && input == old(input)
    {
      output := output + s;
    }

    /** `type`: one character at a time. */
    method TypeOut(s: string)
      modifies this
      ensures output == old(output) + s && input == old(input)
    {
      for k := 0 to |s|
        invariant output == old(output) + s[..k] && input == old(input)
      {
        Print([s[k]]);
        assert s[..k + 1] == s[..k] + [s[k]];
      }
      assert s[..|s|] == s;
    }

    /** The form's `submit` handler. */
    method Submit()
      modifies this
      ensures AllSpace(old(input)) ==> output == old(output) && input == old(input)
      ensures !AllSpace(old(input)) ==> output == old(output) + Transcript(Trim(old(input))) && input == ""
    {
      TrimEmptyIffAllSpace(input);
      var cmd := Trim(input);
      if cmd == "" {
        return;
      }
      ghost var before := output;
      Print(Echo(cmd));
      input := "";
      TypeOut(Thinking);
      Print(Responded);
      AppendThree(before, Echo(cmd), Thinking, Responded);
    }
  }

  lemma AppendThree(o: string, a: string, b: string, c: string)
    ensures o + a + b + c == o + (a + b + c)
  {
  }

  // ---------------------------------------------------------------------
  // The post meta line

  /** The date, then ` • ` and the tags joined by ` · ` when there are
      any; absent tags count as none. */
  function MetaLine(date: string, tags: Option<seq<string>>): string
  {
    if tags.Some? && |tags.value| > 0 then date + " • " + Join(tags.value, " · ") else date
  }

  /** With bullet-free date and tags, the line splits at its one bullet into
      the date (and a space) and the tags joined by ` · ` (after a space);
      without tags it is the date alone. */
  lemma MetaLineParts(date: string, tags: Option<seq<string>>)
    requires '•' !in date
    requires tags.Some? ==> forall k :: 0 <= k < |tags.value| ==> '•' !in tags.value[k]
    ensures tags.Some? && |tags.value| > 0 ==>
              SplitOn(MetaLine(date, tags), '•') == [date + " ", " " + Join(tags.value, " · ")]
    ensures tags.None? || |tags.value| == 0 ==> MetaLine(date, tags) == date
  {
    if tags.Some? && |tags.value| > 0 {
      var rest := " " + Join(tags.value, " · ");
      JoinFree(tags.value, " · ", '•');
      assert '•' !in rest;
      assert MetaLine(date, tags) == (date + " ") + ['•'] + rest;
      SplitPrefix(date + " ", rest, '•');
      SplitFree(rest, '•');
    }
  }

  /** The date can be read back: it is everything before the first bullet
      (less the space the separator adds when tags follow). */
  lemma MetaLineDate(date: string, tags: Option<seq<string>>)
    requires '•' !in date
    ensures var hasTags := tags.Some? && |tags.value| > 0;
            SplitOn(MetaLine(date, tags), '•')[0] == if hasTags then date + " " else date
  {
    if tags.Some? && |tags.value| > 0 {
      var rest := " " + Join(tags.value, " · ");
      assert MetaLine(date, tags) == (date + " ") + ['•'] + rest;
      SplitPrefix(date + " ", rest, '•');
    } else {
      SplitFree(date, '•');
    }
  }
}
