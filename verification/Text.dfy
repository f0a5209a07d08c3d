/**
 The string functions the program relies on: splitting at a one-character
 separator, decimal numerals, and the escaping of a JSON Pointer token
 (section 3 of RFC 6901).
 */
module Text {
  import opened Results

  /** strings.Split for a one-character separator; the result is never empty. */
  function Split(s: string, sep: char): (parts: seq<string>)
    ensures |parts| >= 1
  {
    if s == "" then [""]
    else
      var rest := Split(s[1..], sep);
      if s[0] == sep then [""] + rest else [[s[0]] + rest[0]] + rest[1..]
  }

  function Join(parts: seq<string>, sep: char): string
    requires |parts| >= 1
  {
    if |parts| == 1 then parts[0] else parts[0] + [sep] + Join(parts[1..], sep)
  }

  lemma {:induction false} SplitOne(s: string, sep: char)
    requires sep !in s
    ensures Split(s, sep) == [s]
  {
    if s == "" {
    } else {
      SplitOne(s[1..], sep);
      assert s == [s[0]] + s[1..];
    }
  }

  /** Splitting peels off everything before the first separator. */
  lemma {:induction false} SplitHead(head: string, tail: string, sep: char)
    requires sep !in head
    ensures Split(head + [sep] + tail, sep) == [head] + Split(tail, sep)
  {
    var s := head + [sep] + tail;
    if head == "" {
      assert s[0] == sep && s[1..] == tail;
    } else {
      assert s[1..] == head[1..] + [sep] + tail;
      SplitHead(head[1..], tail, sep);
      assert head == [head[0]] + head[1..];
    }
  }

  /** ... and everything after the last one. */
  lemma {:induction false} SplitLast(head: string, last: string, sep: char)
    requires sep !in last
    ensures Split(head + [sep] + last, sep) == Split(head, sep) + [last]
  {
    var s := head + [sep] + last;
    if head == "" {
      assert s[0] == sep && s[1..] == last;
      SplitOne(last, sep);
    } else {
      assert s[1..] == head[1..] + [sep] + last;
      SplitLast(head[1..], last, sep);
    }
  }

  /** Joining parts that hold no separator and splitting again gives the parts back. */
  lemma {:induction false} SplitJoin(parts: seq<string>, sep: char)
    requires |parts| >= 1
    requires forall i :: 0 <= i < |parts| ==> sep !in parts[i]
    ensures Split(Join(parts, sep), sep) == parts
  {
    if |parts| == 1 {
      SplitOne(parts[0], sep);
    } else {
      SplitJoin(parts[1..], sep);
      SplitHead(parts[0], Join(parts[1..], sep), sep);
    }
  }

  /** Splitting loses nothing, and no part holds the separator. */
  lemma {:induction false} JoinSplit(s: string, sep: char)
    ensures Join(Split(s, sep), sep) == s
    ensures forall i :: 0 <= i < |Split(s, sep)| ==> sep !in Split(s, sep)[i]
  {
    if s == "" {
    } else {
      JoinSplit(s[1..], sep);
      var rest := Split(s[1..], sep);
      assert s == [s[0]] + s[1..];
      if s[0] == sep {
        assert ([""] + rest)[1..] == rest;
      } else {
        assert ([[s[0]] + rest[0]] + rest[1..])[1..] == rest[1..];
      }
    }
  }

  // ---------------------------------------------------------------- numerals

  function Digit(d: nat): char
    requires d < 10
  {
    '0' + d as char
  }

  /** strconv.Itoa on a non-negative number. */
  function Itoa(n: nat): (s: string)
    ensures s != ""
  {
    if n < 10 then [Digit(n)] else Itoa(n / 10) + [Digit(n % 10)]
  }

  /** The %d verb of fmt on a possibly negative number. */
  function FormatInt(i: int): string {
    if i < 0 then "-" + Itoa(-i) else Itoa(i)
  }

  predicate IsDigit(c: char) {
    '0' <= c <= '9'
  }

  function Numeral(s: string): Option<nat> {
    if s == "" then None
    else
      var last := s[|s| - 1];
      if !IsDigit(last) then None
      else if |s| == 1 then Some((last - '0') as nat)
      else match Numeral(s[..|s| - 1])
        case None => None
        case Some(high) => Some(10 * high + (last - '0') as nat)
  }

  /** An array index token (section 4 of RFC 6901): digits without a leading zero. */
  function ParseIndex(token: string): Option<nat> {
    if |token| > 1 && token[0] == '0' then None else Numeral(token)
  }

  lemma {:induction false} ItoaDigits(n: nat)
    ensures forall c :: c in Itoa(n) ==> IsDigit(c)
    ensures Numeral(Itoa(n)) == Some(n)
    ensures n > 0 ==> Itoa(n)[0] != '0'
  {
    if n < 10 {
    } else {
      ItoaDigits(n / 10);
      var s := Itoa(n);
      assert s[..|s| - 1] == Itoa(n / 10);
    }
  }

  lemma {:induction false} NumeralItoa(s: string)
    requires Numeral(s).Some?
    requires |s| > 1 ==> s[0] != '0'
    ensures s == Itoa(Numeral(s).value)
  {
    if |s| > 1 {
      var high := s[..|s| - 1];
      assert s == high + [s[|s| - 1]];
      NumeralItoa(high);
      assert high[0] == s[0];
    }
  }

  /** Decimal indices round-trip in both directions: the token of n is the only token read as n. */
  lemma IndexRoundTrip(n: nat, token: string)
    ensures ParseIndex(token) == Some(n) <==> token == Itoa(n)
  {
    ItoaDigits(n);
    if ParseIndex(token) == Some(n) {
      NumeralItoa(token);
    }
  }

  /** A decimal integer, read back. */
  function ParseInt(s: string): Option<int> {
    if s != "" && s[0] == '-' then
      var n :- Numeral(s[1..]);
      var i: int := 0 - n;
      Some(i)
    else
      var n :- Numeral(s);
      Some(n)
  }

  lemma FormatIntRoundTrip(i: int)
    ensures ParseInt(FormatInt(i)) == Some(i)
  {
    ItoaDigits(if i < 0 then -i else i);
    if i < 0 {
      assert FormatInt(i)[1..] == Itoa(-i);
    } else {
      assert FormatInt(i)[0] in FormatInt(i);
    }
  }

  // ------------------------------------------------- JSON Pointer token escapes

  /** strings.Replace(key, "/", "~1", -1). */
  function EscapeSlash(key: string): string {
    if key == "" then ""
    else if key[0] == '/' then "~1" + EscapeSlash(key[1..])
    else [key[0]] + EscapeSlash(key[1..])
  }

  /** The meaning of an escaped token: "~1" is a slash, "~0" a tilde, any other tilde an error. */
  function UnescapeToken(token: string): Option<string> {
    if token == "" then Some("")
    else if token[0] == '~' then
      if |token| < 2 || token[1] !in "01" then None
      else match UnescapeToken(token[2..])
        case None => None
        case Some(rest) => Some([if token[1] == '1' then '/' else '~'] + rest)
    else match UnescapeToken(token[1..])
      case None => None
      case Some(rest) => Some([token[0]] + rest)
  }

  lemma {:induction false} EscapeHasNoSlash(key: string)
    ensures '/' !in EscapeSlash(key)
  {
    if key == "" {
    } else {
      EscapeHasNoSlash(key[1..]);
    }
  }

  lemma {:induction false} EscapePlain(key: string)
    requires '~' !in key
    ensures UnescapeToken(EscapeSlash(key)) == Some(key)
  {
    if key == "" {
    } else {
      EscapePlain(key[1..]);
      var rest := EscapeSlash(key[1..]);
      assert key == [key[0]] + key[1..];
      if key[0] == '/' {
        assert ("~1" + rest)[2..] == rest;
      } else {
        assert ([key[0]] + rest)[1..] == rest;
      }
    }
  }

  /** Reading back an escaped key never lengthens it, and shortens it when the key holds a tilde. */
  lemma {:induction false} EscapeLength(key: string)
    ensures var back := UnescapeToken(EscapeSlash(key));
            back.Some? ==> |back.value| <= |key| && ('~' in key ==> |back.value| < |key|)
  {
    if key == "" {
    } else {
      var rest := EscapeSlash(key[1..]);
      EscapeLength(key[1..]);
      assert key == [key[0]] + key[1..];
      if key[0] == '/' {
        assert ("~1" + rest)[2..] == rest;
      } else if key[0] != '~' {
        assert ([key[0]] + rest)[1..] == rest;
      } else if |key| > 1 && key[1] in "01" {
        var rest2 := EscapeSlash(key[2..]);
        assert key[1..][1..] == key[2..];
        assert EscapeSlash(key) == [key[0], key[1]] + rest2;
        assert EscapeSlash(key)[2..] == rest2;
        EscapeLength(key[2..]);
      } else if |key| > 1 {
        assert EscapeSlash(key)[1] == rest[0];
      }
    }
  }

  /**
   The program escapes only the slash. A key survives that exactly when it
   holds no tilde, which is why its constant keys are safe.
   */
  lemma EscapeRoundTrip(key: string)
    ensures UnescapeToken(EscapeSlash(key)) == Some(key) <==> '~' !in key
  {
    if '~' !in key {
      EscapePlain(key);
    } else {
      EscapeLength(key);
    }
  }
}
