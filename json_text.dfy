/**
 * JSON text (RFC 8259) for the one kind of value the wiki stores as JSON:
 * an array of strings. `Stringify` is what `JSON.stringify` writes for such
 * an array (no white space, the escapes of ECMAScript's QuoteJSONString);
 * `Parse` is `JSON.parse` restricted to arrays of strings, with `None` for
 * text it would reject or that is not an array of strings.
 */
module JsonText {
  import opened Wrappers

  /** Lower-case hexadecimal digit, as QuoteJSONString writes it. */
  function HexDigit(n: nat): char
    requires n < 16
  {
    if n < 10 then ('0' as int + n) as char else ('a' as int + n - 10) as char
  }

  /** Value of a hexadecimal digit of either case. */
  function HexValue(c: char): (v: Option<nat>)
    ensures v.Some? ==> v.value < 16
  {
    if '0' <= c <= '9' then Some(c as int - '0' as int)
    else if 'a' <= c <= 'f' then Some(c as int - 'a' as int + 10)
    else if 'A' <= c <= 'F' then Some(c as int - 'A' as int + 10)
    else None
  }

  /** How one character of a string is written between the quotes. */
  function EscapeChar(c: char): string
  {
    var n := c as int;
    if c == '"' then "\\\""
    else if c == '\\' then "\\\\"
    else if n == 0x08 then "\\b"
    else if n == 0x09 then "\\t"
    else if n == 0x0A then "\\n"
    else if n == 0x0C then "\\f"
    else if n == 0x0D then "\\r"
    else if n < 0x20 then "\\u00" + [HexDigit(n / 16), HexDigit(n % 16)]
    else [c]
  }

  function EscapeBody(s: string): string
  {
    if s == [] then "" else EscapeChar(s[0]) + EscapeBody(s[1..])
  }

  function Quote(s: string): string
  {
    "\"" + EscapeBody(s) + "\""
  }

  function QuoteAll(xs: seq<string>): string
  {
    if |xs| == 0 then ""
    else if |xs| == 1 then Quote(xs[0])
    else Quote(xs[0]) + "," + QuoteAll(xs[1..])
  }

  /** `JSON.stringify(xs)` for an array of strings. */
  function Stringify(xs: seq<string>): string
  {
    "[" + QuoteAll(xs) + "]"
  }

  predicate IsJsonSpace(c: char)
  {
    c == ' ' || c == '\t' || c == '\n' || c == '\r'
  }

  function SkipSpace(s: string): (r: string)
    ensures |r| <= |s|
  {
    if |s| > 0 && IsJsonSpace(s[0]) then SkipSpace(s[1..]) else s
  }

  /**
   * The character an escape sequence stands for, and how many characters
   * after the backslash it takes. A `\u` escape naming a surrogate code unit
   * has no `char` here and is refused.
   */
  function Unescape(s: string): (r: Option<(char, nat)>)
    ensures r.Some? ==> 1 <= r.value.1 <= |s|
  {
    if |s| == 0 then None
    else if s[0] == '"' then Some(('"', 1))
    else if s[0] == '\\' then Some(('\\', 1))
    else if s[0] == '/' then Some(('/', 1))
    else if s[0] == 'b' then Some((0x08 as char, 1))
    else if s[0] == 't' then Some((0x09 as char, 1))
    else if s[0] == 'n' then Some((0x0A as char, 1))
    else if s[0] == 'f' then Some((0x0C as char, 1))
    else if s[0] == 'r' then Some((0x0D as char, 1))
    else if s[0] == 'u' && |s| >= 5 then
      match (HexValue(s[1]), HexValue(s[2]), HexValue(s[3]), HexValue(s[4]))
      case (Some(a), Some(b), Some(c), Some(d)) =>
        var n := a * 4096 + b * 256 + c * 16 + d;
        if n < 0xD800 || 0xE000 <= n then Some((n as char, 5)) else None
      case _ => None
    else None
  }

  /**
   * Reads the characters of a string up to its closing quote; `s` starts just
   * after the opening quote. Gives the string and the text after the quote.
   */
  function ParseBody(s: string): (r: Option<(string, string)>)
    ensures r.Some? ==> |r.value.1| < |s|
    decreases |s|
  {
    if |s| == 0 then None
    else if s[0] == '"' then Some(("", s[1..]))
    else if s[0] == '\\' then
      match Unescape(s[1..])
      case None => None
      case Some((c, k)) =>
        match ParseBody(s[1 + k..])
        case None => None
        case Some((body, rest)) => Some(([c] + body, rest))
    else if (s[0] as int) < 0x20 then None
    else
      match ParseBody(s[1..])
      case None => None
      case Some((body, rest)) => Some(([s[0]] + body, rest))
  }

  /** Reads `"..." (, "...")* ]` and then only white space to the end. */
  function ParseItems(s: string): Option<seq<string>>
    decreases |s|
  {
    if |s| == 0 || s[0] != '"' then None
    else
      match ParseBody(s[1..])
      case None => None
      case Some((x, rest)) =>
        var r := SkipSpace(rest);
        if |r| == 0 then None
        else if r[0] == ']' then (if SkipSpace(r[1..]) == "" then Some([x]) else None)
        else if r[0] == ',' then
          match ParseItems(SkipSpace(r[1..]))
          case None => None
          case Some(xs) => Some([x] + xs)
        else None
  }

  /** `JSON.parse(text)` when the text is an array of strings; `None` otherwise. */
  function Parse(text: string): Option<seq<string>>
  {
    var t := SkipSpace(text);
    if |t| == 0 || t[0] != '[' then None
    else
      var u := SkipSpace(t[1..]);
      if |u| > 0 && u[0] == ']' then (if SkipSpace(u[1..]) == "" then Some([]) else None)
      else ParseItems(u)
  }

  lemma HexDigitValue(n: nat)
    requires n < 16
    ensures HexValue(HexDigit(n)) == Some(n)
  {
  }

  /** Every escape `EscapeChar` writes after a backslash reads back as its character. */
  lemma UnescapeEscape(c: char, rest: string)
    requires |EscapeChar(c)| > 1
    ensures Unescape(EscapeChar(c)[1..] + rest) == Some((c, |EscapeChar(c)| - 1))
  {
    var n := c as int;
    var e := EscapeChar(c);
    if n < 0x20 && n != 0x08 && n != 0x09 && n != 0x0A && n != 0x0C && n != 0x0D {
      var s := e[1..] + rest;
      HexDigitValue(n / 16);
      HexDigitValue(n % 16);
      assert s[0] == 'u' && s[1] == '0' && s[2] == '0';
      assert s[3] == HexDigit(n / 16) && s[4] == HexDigit(n % 16);
      assert 0 * 4096 + 0 * 256 + (n / 16) * 16 + n % 16 == n;
    }
  }

  lemma {:induction false} ParseBodyQuoted(s: string, rest: string)
    ensures ParseBody(EscapeBody(s) + "\"" + rest) == Some((s, rest))
  {
    if s == [] {
      assert EscapeBody(s) + "\"" + rest == "\"" + rest;
    } else {
      var tail := EscapeBody(s[1..]) + "\"" + rest;
      assert EscapeBody(s) + "\"" + rest == EscapeChar(s[0]) + tail;
      ParseBodyQuoted(s[1..], rest);
      ParseBodyEscaped(s[0], tail);
      assert [s[0]] + s[1..] == s;
    }
  }

  /** One written character reads back as itself, and the reading goes on after it. */
  lemma ParseBodyEscaped(c: char, tail: string)
    requires ParseBody(tail).Some?
    ensures ParseBody(EscapeChar(c) + tail) == Some(([c] + ParseBody(tail).value.0, ParseBody(tail).value.1))
  {
    var e := EscapeChar(c);
    var t := e + tail;
    if |e| == 1 {
      assert e == [c];
      assert t[0] == c && t[1..] == tail;
    } else {
      assert t[0] == '\\';
      assert t[1..] == e[1..] + tail;
      UnescapeEscape(c, tail);
      assert t[1 + (|e| - 1)..] == tail;
    }
  }

  /** The last item: a quoted string and the closing bracket. */
  lemma ParseItemsLast(x: string)
    ensures ParseItems(Quote(x) + "]") == Some([x])
  {
    var s := Quote(x) + "]";
    assert s[1..] == EscapeBody(x) + "\"" + "]";
    ParseBodyQuoted(x, "]");
    assert SkipSpace("]") == "]";
    assert "]"[1..] == "" && SkipSpace("") == "";
  }

  /** Once an item is read and a comma follows it, the list goes on with the next item. */
  lemma ParseItemsComma(s: string, x: string, rest: string)
    requires |s| > 0 && s[0] == '"' && ParseBody(s[1..]) == Some((x, rest))
    requires |rest| > 1 && rest[0] == ',' && rest[1] == '"'
    ensures ParseItems(rest[1..]).Some? ==> ParseItems(s) == Some([x] + ParseItems(rest[1..]).value)
  {
    assert SkipSpace(rest) == rest;
    assert SkipSpace(rest[1..]) == rest[1..];
  }

  /** An item followed by a comma and the next item. */
  lemma ParseItemsNext(x: string, next: string)
    requires |next| > 0 && next[0] == '"'
    ensures ParseItems(next).Some? ==> ParseItems(Quote(x) + "," + next) == Some([x] + ParseItems(next).value)
  {
    var after := "," + next;
    var body := EscapeBody(x) + "\"" + after;
    var s := "\"" + body;
    assert Quote(x) + "," + next == s;
    assert s[1..] == body;
    ParseBodyQuoted(x, after);
    assert after[1..] == next;
    ParseItemsComma(s, x, after);
  }

  lemma {:induction false} ParseItemsQuoted(xs: seq<string>)
    requires |xs| >= 1
    ensures ParseItems(QuoteAll(xs) + "]") == Some(xs)
  {
    var x := xs[0];
    if |xs| == 1 {
      assert QuoteAll(xs) + "]" == Quote(x) + "]";
      ParseItemsLast(x);
      assert xs == [x];
    } else {
      var next := QuoteAll(xs[1..]) + "]";
      assert QuoteAll(xs) + "]" == Quote(x) + "," + next;
      ParseItemsQuoted(xs[1..]);
      assert next[0] == '"' by {
        if |xs[1..]| == 1 {
          assert next == Quote(xs[1]) + "]";
        } else {
          assert next == Quote(xs[1]) + "," + QuoteAll(xs[2..]) + "]";
        }
      }
      ParseItemsNext(x, next);
      assert [x] + xs[1..] == xs;
    }
  }

  /** Round trip: `JSON.parse(JSON.stringify(xs))` gives `xs` back, in order. */
  lemma ParseStringify(xs: seq<string>)
    ensures Parse(Stringify(xs)) == Some(xs)
  {
    var text := Stringify(xs);
    assert text[0] == '[' && text[1..] == QuoteAll(xs) + "]";
    if |xs| == 0 {
      assert text[1..] == "]";
    } else {
      ParseItemsQuoted(xs);
      assert (QuoteAll(xs) + "]")[0] == '"';
    }
  }
}
