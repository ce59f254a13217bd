/** The string operations the annotation processor and `EventsHelper.of` rely
    on: `String.replace` on single characters, joining parameter names the way
    a `StringBuilder` loop with a final `setLength` does, `Integer.toString`,
    and the matching parsers used to read generated text back. */
module Strings {
  import opened Base

  /** `s.replace(from, to)` for one-character strings: every occurrence of
      `from` is replaced, every other character is kept in place. */
  function ReplaceChar(s: string, from: char, to: char): (r: string)
    ensures |r| == |s|
    ensures forall i :: 0 <= i < |s| ==> r[i] == (if s[i] == from then to else s[i])
  {
    if s == [] then [] else [if s[0] == from then to else s[0]] + ReplaceChar(s[1..], from, to)
  }

  /** After replacement no occurrence of the replaced character is left. */
  lemma ReplaceCharRemoves(s: string, from: char, to: char)
    requires from != to
    ensures from !in ReplaceChar(s, from, to)
  {
    var r := ReplaceChar(s, from, to);
    forall i | 0 <= i < |r| ensures r[i] != from {
      assert r[i] == (if s[i] == from then to else s[i]);
    }
  }

  // ---------------------------------------------------------------------------
  // Joining

  /** `parts` separated by `sep`, with nothing before the first part and
      nothing after the last one. */
  function Join(parts: seq<string>, sep: string): string
  {
    if |parts| == 0 then ""
    else if |parts| == 1 then parts[0]
    else parts[0] + sep + Join(parts[1..], sep)
  }

  /** What a loop appending `part + sep` for every part builds. */
  function JoinTerminated(parts: seq<string>, sep: string): string
  {
    if parts == [] then "" else JoinTerminated(parts[..|parts| - 1], sep) + parts[|parts| - 1] + sep
  }

  lemma {:induction false} JoinSnoc(parts: seq<string>, p: string, sep: string)
    requires parts != []
    ensures Join(parts + [p], sep) == Join(parts, sep) + sep + p
  {
    if |parts| == 1 {
      assert parts + [p] == [parts[0], p];
      assert ([parts[0], p])[1..] == [p];
    } else {
      assert (parts + [p])[1..] == parts[1..] + [p];
      JoinSnoc(parts[1..], p, sep);
    }
  }

  /** Trimming the trailing separator off a terminated join gives the join:
      the `setLength(length() - 2)` after the parameter loop leaves exactly
      the comma-separated list, with no stray separator. */
  lemma {:induction false} TrimmedJoinTerminated(parts: seq<string>, sep: string)
    requires parts != []
    ensures |JoinTerminated(parts, sep)| >= |sep|
    ensures JoinTerminated(parts, sep)[..|JoinTerminated(parts, sep)| - |sep|] == Join(parts, sep)
  {
    var init, last := parts[..|parts| - 1], parts[|parts| - 1];
    assert parts == init + [last];
    if init == [] {
      assert JoinTerminated(parts, sep) == "" + last + sep;
    } else {
      TrimmedJoinTerminated(init, sep);
      var t := JoinTerminated(init, sep);
      assert t[..|t| - |sep|] == Join(init, sep);
      JoinSnoc(init, last, sep);
      assert t == Join(init, sep) + sep;
      assert JoinTerminated(parts, sep) == Join(init, sep) + sep + last + sep;
    }
  }

  // ---------------------------------------------------------------------------
  // Searching and splitting

  /** The index of the first occurrence of `c` in `s`, if any. */
  function IndexOf(s: string, c: char): (r: Option<nat>)
    ensures r.Some? ==> r.value < |s| && s[r.value] == c && c !in s[..r.value]
    ensures r.None? ==> c !in s
  {
    if s == [] then None
    else if s[0] == c then Some(0)
    else match IndexOf(s[1..], c)
      case None => None
      case Some(i) =>
        assert s[..i + 1] == [s[0]] + s[1..][..i];
        Some(i + 1)
  }

  /** A character that cannot occur in `a` is first found just after `a`. */
  lemma IndexOfAfter(a: string, c: char, b: string)
    requires c !in a
    ensures IndexOf(a + [c] + b, c) == Some(|a|)
  {
    var s := a + [c] + b;
    assert s[|a|] == c;
    var r := IndexOf(s, c);
    assert r.Some?;
    var k := r.value;
    forall i | 0 <= i < |a| ensures s[i] != c {
      assert s[i] == a[i];
    }
    forall j | 0 <= j < k ensures s[j] != c {
      assert s[..k][j] == s[j];
    }
  }

  /** Splits the text at every ", ". */
  function SplitOnCommaSpace(s: string): seq<string>
    decreases |s|
  {
    match IndexOf(s, ',')
    case None => [s]
    case Some(i) =>
      if i + 1 < |s| && s[i + 1] == ' ' then [s[..i]] + SplitOnCommaSpace(s[i + 2..]) else [s]
  }

  /** The parameter names of a comma-separated list (the empty text has none). */
  function SplitParams(s: string): seq<string>
  {
    if s == "" then [] else SplitOnCommaSpace(s)
  }

  // ---------------------------------------------------------------------------
  // Identifiers

  /** A letter, digit or underscore. `$`, although legal in Java names, is
      left out: the generated statement is handed to JavaPoet as a format
      string, where `$` starts a placeholder and is not emitted as written. */
  predicate IsIdentifierChar(c: char)
  {
    ('a' <= c <= 'z') || ('A' <= c <= 'Z') || ('0' <= c <= '9') || c == '_'
  }

  /** A non-empty ASCII name without `$`, as the method and parameter names
      the generated statement reproduces verbatim are. */
  predicate IsIdentifier(s: string)
  {
    |s| > 0 && forall i :: 0 <= i < |s| ==> IsIdentifierChar(s[i])
  }

  predicate AllIdentifiers(names: seq<string>)
  {
    forall i :: 0 <= i < |names| ==> IsIdentifier(names[i])
  }

  /** An identifier contains no character outside the identifier alphabet. */
  lemma IdentifierExcludes(s: string, c: char)
    requires IsIdentifier(s) && !IsIdentifierChar(c)
    ensures c !in s
  {
    forall i | 0 <= i < |s| ensures s[i] != c {
      assert IsIdentifierChar(s[i]);
    }
  }

  /** A ", "-joined list of identifiers contains no character that is
      neither an identifier character, a comma nor a space. */
  lemma {:induction false} JoinedIdentifiersExclude(names: seq<string>, c: char)
    requires AllIdentifiers(names) && !IsIdentifierChar(c) && c != ',' && c != ' '
    ensures c !in Join(names, ", ")
  {
    if |names| == 1 {
      IdentifierExcludes(names[0], c);
    } else if |names| > 1 {
      IdentifierExcludes(names[0], c);
      JoinedIdentifiersExclude(names[1..], c);
      assert Join(names, ", ") == names[0] + ", " + Join(names[1..], ", ");
    }
  }

  /** Splitting a joined list of identifiers gives the list back. */
  lemma {:induction false} SplitJoin(names: seq<string>)
    requires AllIdentifiers(names)
    ensures SplitParams(Join(names, ", ")) == names
  {
    if |names| == 1 {
      IdentifierExcludes(names[0], ',');
    } else if |names| > 1 {
      var head, rest := names[0], Join(names[1..], ", ");
      IdentifierExcludes(head, ',');
      var s := Join(names, ", ");
      assert s == head + [','] + (" " + rest);
      IndexOfAfter(head, ',', " " + rest);
      assert s[..|head|] == head;
      assert s[|head| + 2..] == rest;
      SplitJoin(names[1..]);
      assert rest != "" by {
        if |names[1..]| == 1 {
        } else {
          assert rest == names[1] + ", " + Join(names[2..], ", ");
        }
      }
      assert names == [head] + names[1..];
    }
  }

  // ---------------------------------------------------------------------------
  // Decimal integers

  predicate IsDigit(c: char)
  {
    '0' <= c <= '9'
  }

  predicate AllDigits(s: string)
  {
    forall i :: 0 <= i < |s| ==> IsDigit(s[i])
  }

  function DigitChar(d: nat): (c: char)
    requires d < 10
    ensures IsDigit(c)
  {
    ('0' as int + d) as char
  }

  function DigitValue(c: char): nat
    requires IsDigit(c)
  {
    c as int - '0' as int
  }

  /** The decimal digits of `n`, most significant first, no leading zeros. */
  function NatToDecimal(n: nat): (r: string)
    ensures |r| > 0 && AllDigits(r)
    decreases n
  {
    if n < 10 then [DigitChar(n)] else NatToDecimal(n / 10) + [DigitChar(n % 10)]
  }

  /** `Integer.toString(n)` (what `StringBuilder.append(int)` appends). */
  function IntToDecimal(n: int): string
  {
    if n < 0 then "-" + NatToDecimal(-n) else NatToDecimal(n)
  }

  /** The number a string of decimal digits denotes. */
  function DecimalValue(s: string): nat
    requires AllDigits(s)
  {
    if s == [] then 0 else 10 * DecimalValue(s[..|s| - 1]) + DigitValue(s[|s| - 1])
  }

  /** Reads an optionally negative decimal integer. */
  function ParseInt(s: string): Option<int>
  {
    if |s| > 1 && s[0] == '-' && AllDigits(s[1..]) then Some(0 - DecimalValue(s[1..]))
    else if |s| > 0 && AllDigits(s) then Some(DecimalValue(s))
    else None
  }

  lemma {:induction false} NatDecimalRoundTrip(n: nat)
    ensures DecimalValue(NatToDecimal(n)) == n
    decreases n
  {
    var s := NatToDecimal(n);
    if n >= 10 {
      NatDecimalRoundTrip(n / 10);
      assert s[..|s| - 1] == NatToDecimal(n / 10);
    }
  }

  /** Reading back the decimal text of any integer gives that integer. */
  lemma IntDecimalRoundTrip(n: int)
    ensures ParseInt(IntToDecimal(n)) == Some(n)
  {
    if n < 0 {
      NatDecimalRoundTrip(-n);
      var s := IntToDecimal(n);
      assert s[1..] == NatToDecimal(-n);
      assert !IsDigit(s[0]);
    } else {
      NatDecimalRoundTrip(n);
    }
  }
}
