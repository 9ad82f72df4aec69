/** String operations of the JavaScript runtime that the core relies on,
    restricted to what it uses: `split` and `join` on one character,
    `includes`, `startsWith`, ASCII case mapping and integer printing. */
module Text {

  /** Number of occurrences of `c` in `s`. */
  function Count(s: string, c: char): nat {
    if |s| == 0 then 0 else (if s[0] == c then 1 else 0) + Count(s[1..], c)
  }

  lemma {:induction false} CountAppend(a: string, b: string, c: char)
    ensures Count(a + b, c) == Count(a, c) + Count(b, c)
  {
    if |a| == 0 {
      assert a + b == b;
    } else {
      assert (a + b)[1..] == a[1..] + b;
      CountAppend(a[1..], b, c);
    }
  }

  lemma {:induction false} CountZero(s: string, c: char)
    ensures Count(s, c) == 0 <==> c !in s
  {
    if |s| > 0 {
      CountZero(s[1..], c);
      assert c in s <==> s[0] == c || c in s[1..];
    }
  }

  /** `s.split(sep)`: the pieces between the occurrences of `sep`. */
  function Split(s: string, sep: char): (parts: seq<string>)
    ensures |parts| >= 1
    decreases |s|
  {
    if |s| == 0 then [""]
    else
      var rest := Split(s[1..], sep);
      if s[0] == sep then [""] + rest
      else [[s[0]] + rest[0]] + rest[1..]
  }

  /** `parts.join(sep)`. */
  function Join(parts: seq<string>, sep: char): string
  {
    if |parts| == 0 then ""
    else if |parts| == 1 then parts[0]
    else parts[0] + [sep] + Join(parts[1..], sep)
  }

  /** `split` yields one more piece than there are separators, and no piece
      holds the separator. */
  lemma {:induction false} SplitShape(s: string, sep: char)
    ensures |Split(s, sep)| == Count(s, sep) + 1
    ensures forall i :: 0 <= i < |Split(s, sep)| ==> sep !in Split(s, sep)[i]
    decreases |s|
  {
    if |s| > 0 {
      SplitShape(s[1..], sep);
      var rest := Split(s[1..], sep);
      if s[0] != sep {
        var parts := Split(s, sep);
        assert parts[0] == [s[0]] + rest[0];
        forall i | 0 <= i < |parts| ensures sep !in parts[i] {
          if i > 0 { assert parts[i] == rest[i]; }
        }
      }
    }
  }

  /** Joining the pieces of a split gives back the string. */
  lemma {:induction false} JoinSplit(s: string, sep: char)
    ensures Join(Split(s, sep), sep) == s
    decreases |s|
  {
    if |s| > 0 {
      JoinSplit(s[1..], sep);
      var rest := Split(s[1..], sep);
      if s[0] == sep {
        assert Split(s, sep) == [""] + rest;
        if |rest| == 1 {
          assert Join([""] + rest, sep) == "" + [sep] + rest[0];
        } else {
          assert ([""] + rest)[1..] == rest;
        }
        assert s == [s[0]] + s[1..];
      } else {
        var parts := Split(s, sep);
        assert parts == [[s[0]] + rest[0]] + rest[1..];
        if |rest| == 1 {
          assert Join(parts, sep) == [s[0]] + rest[0];
        } else {
          assert parts[1..] == rest[1..];
          assert Join(rest, sep) == rest[0] + [sep] + Join(rest[1..], sep);
        }
        assert s == [s[0]] + s[1..];
      }
    }
  }

  /** One unfolding of `Split` on a string with a known first character. */
  lemma SplitCons(c: char, t: string, sep: char)
    ensures Split([c] + t, sep) ==
      if c == sep then [""] + Split(t, sep)
      else [[c] + Split(t, sep)[0]] + Split(t, sep)[1..]
  {
    assert ([c] + t)[1..] == t;
  }

  /** A string split at one separator splits into the pieces of each side. */
  lemma {:induction false} SplitAround(a: string, b: string, sep: char)
    ensures Split(a + [sep] + b, sep) == Split(a, sep) + Split(b, sep)
    decreases |a|
  {
    if |a| == 0 {
      assert a + [sep] + b == [sep] + b;
      SplitCons(sep, b, sep);
    } else {
      var tail := a[1..] + [sep] + b;
      assert a + [sep] + b == [a[0]] + tail;
      assert a == [a[0]] + a[1..];
      SplitAround(a[1..], b, sep);
      SplitCons(a[0], tail, sep);
      SplitCons(a[0], a[1..], sep);
      ConsFirst(a[0] == sep, [a[0]], Split(a[1..], sep), Split(b, sep));
    }
  }

  /** The sequence step behind `SplitAround`: extending the first piece and
      appending the second side commute. */
  lemma ConsFirst(isSep: bool, c: string, restA: seq<string>, restB: seq<string>)
    requires |restA| >= 1
    ensures (if isSep then [""] + (restA + restB) else [c + (restA + restB)[0]] + (restA + restB)[1..])
         == (if isSep then [""] + restA else [c + restA[0]] + restA[1..]) + restB
  {
    if !isSep {
      assert (restA + restB)[1..] == restA[1..] + restB;
    }
  }

  /** A string without the separator is its own single piece. */
  lemma SplitNone(s: string, sep: char)
    requires sep !in s
    ensures Split(s, sep) == [s]
  {
    SplitShape(s, sep);
    CountZero(s, sep);
    JoinSplit(s, sep);
  }

  predicate StartsWith(s: string, prefix: string) {
    |prefix| <= |s| && s[..|prefix|] == prefix
  }

  /** `s.includes(t)`. */
  predicate Includes(s: string, t: string)
    decreases |s|
  {
    StartsWith(s, t) || (|s| > 0 && Includes(s[1..], t))
  }

  function AsciiLowerChar(c: char): char {
    if 'A' <= c <= 'Z' then (c as int + 32) as char else c
  }

  function AsciiUpperChar(c: char): char {
    if 'a' <= c <= 'z' then (c as int - 32) as char else c
  }

  /** `s.toLowerCase()` for ASCII letters. */
  function AsciiLower(s: string): (r: string)
    ensures |r| == |s|
    ensures forall i :: 0 <= i < |s| ==> r[i] == AsciiLowerChar(s[i])
  {
    if |s| == 0 then "" else [AsciiLowerChar(s[0])] + AsciiLower(s[1..])
  }

  /** `s.charAt(0).toUpperCase() + s.slice(1)` for ASCII letters. */
  function Capitalize(s: string): (r: string)
    ensures |r| == |s|
    ensures |s| > 0 ==> r[0] == AsciiUpperChar(s[0]) && r[1..] == s[1..]
  {
    if |s| == 0 then "" else [AsciiUpperChar(s[0])] + s[1..]
  }

  function DigitChar(d: nat): char
    requires d < 10
  {
    "0123456789"[d]
  }

  /** Decimal text of a natural number. */
  function NatToString(n: nat): (r: string)
    ensures |r| >= 1
  {
    if n < 10 then [DigitChar(n)] else NatToString(n / 10) + [DigitChar(n % 10)]
  }

  /** `String(n)` for an integer. */
  function IntToString(n: int): string {
    if n < 0 then "-" + NatToString(-n) else NatToString(n)
  }
}
