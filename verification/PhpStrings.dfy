/** The few PHP string primitives the form generator is built from:
    `explode`, `implode`, a one-character `str_replace` and `strtolower`.
    Strings are sequences of characters; `strtolower` lowers ASCII letters only. */
module PhpStrings {

  /** An ASCII upper-case letter. */
  predicate IsUpper(ch: char) {
    'A' <= ch <= 'Z'
  }

  /** An ASCII lower-case letter. */
  predicate IsLower(ch: char) {
    'a' <= ch <= 'z'
  }

  function LowerChar(ch: char): char {
    if IsUpper(ch) then (ch as int + 32) as char else ch
  }

  /** `strtolower`: every upper-case letter is replaced by its lower-case form,
      every other character is kept. */
  function StrToLower(s: string): (r: string)
    ensures |r| == |s|
    ensures forall i :: 0 <= i < |s| ==> r[i] == LowerChar(s[i])
    ensures forall i :: 0 <= i < |r| ==> !IsUpper(r[i])
  {
    if s == [] then [] else [LowerChar(s[0])] + StrToLower(s[1..])
  }

  /** `strtolower` works character by character, so it distributes over concatenation. */
  lemma StrToLowerAppend(a: string, b: string)
    ensures StrToLower(a + b) == StrToLower(a) + StrToLower(b)
  {
    var l, r := StrToLower(a + b), StrToLower(a) + StrToLower(b);
    assert |l| == |r|;
    forall i | 0 <= i < |l| ensures l[i] == r[i] {
      if i < |a| {
        assert (a + b)[i] == a[i];
      } else {
        assert (a + b)[i] == b[i - |a|];
      }
    }
  }

  /** Lowering a lowered string changes nothing. */
  lemma StrToLowerIdempotent(s: string)
    ensures StrToLower(StrToLower(s)) == StrToLower(s)
  {
    var once := StrToLower(s);
    var twice := StrToLower(once);
    forall i | 0 <= i < |s| ensures twice[i] == once[i] {
      assert !IsUpper(once[i]);
    }
  }

  /** A character that is not a letter is found in the lowered string exactly
      where it was found in the original. */
  lemma StrToLowerKeepsNonLetter(s: string, ch: char)
    requires !IsUpper(ch) && !IsLower(ch)
    ensures ch in StrToLower(s) <==> ch in s
  {
    var r := StrToLower(s);
    if ch in r {
      var i :| 0 <= i < |r| && r[i] == ch;
      assert s[i] == ch;
    }
    if ch in s {
      var i :| 0 <= i < |s| && s[i] == ch;
      assert r[i] == ch;
    }
  }

  /** `str_replace(from, to, s)` for one-character needles: every occurrence of
      `from` becomes `to`, everything else is kept, the length does not change. */
  function ReplaceChar(s: string, from: char, to: char): (r: string)
    ensures |r| == |s|
    ensures forall i :: 0 <= i < |s| ==> r[i] == (if s[i] == from then to else s[i])
    ensures from != to ==> from !in r
  {
    if s == [] then []
    else [if s[0] == from then to else s[0]] + ReplaceChar(s[1..], from, to)
  }

  /** Replacing a character that does not occur changes nothing. */
  lemma ReplaceAbsent(s: string, from: char, to: char)
    requires from !in s
    ensures ReplaceChar(s, from, to) == s
  {
    var r := ReplaceChar(s, from, to);
    forall i | 0 <= i < |s| ensures r[i] == s[i] {
      assert s[i] != from;
    }
  }

  /** `explode(sep, s)` for a one-character separator: the pieces of `s` between
      the occurrences of `sep`. There is always at least one piece (an empty `s`
      gives one empty piece), no piece contains `sep`, and there is exactly one
      piece, `s` itself, when `sep` does not occur. */
  function Explode(s: string, sep: char): (parts: seq<string>)
    ensures |parts| >= 1
    ensures forall i :: 0 <= i < |parts| ==> sep !in parts[i]
    ensures |parts| == 1 <==> sep !in s
    ensures sep !in s ==> parts == [s]
  {
    if s == [] then [[]]
    else
      var rest := Explode(s[1..], sep);
      if s[0] == sep then [[]] + rest
      else
        assert sep !in s ==> [s[0]] + s[1..] == s;
        [[s[0]] + rest[0]] + rest[1..]
  }

  /** `implode(glue, parts)`: the parts with `glue` between neighbours. */
  function Implode(parts: seq<string>, glue: string): string {
    if |parts| == 0 then []
    else if |parts| == 1 then parts[0]
    else parts[0] + glue + Implode(parts[1..], glue)
  }

  /** Imploding a concatenation puts one glue between the two halves. */
  lemma {:induction false} ImplodeAppend(a: seq<string>, b: seq<string>, glue: string)
    requires |a| >= 1 && |b| >= 1
    ensures Implode(a + b, glue) == Implode(a, glue) + glue + Implode(b, glue)
  {
    if |a| == 1 {
      assert (a + b)[1..] == b;
    } else {
      assert (a + b)[1..] == a[1..] + b;
      ImplodeAppend(a[1..], b, glue);
    }
  }

  /** Imploding with one more part at the end appends the glue and that part
      (or gives just that part when there was none before). */
  lemma ImplodeLast(parts: seq<string>, last: string, glue: string)
    ensures Implode(parts + [last], glue) ==
              if parts == [] then last else Implode(parts, glue) + glue + last
  {
    if parts == [] {
      assert parts + [last] == [last];
    } else {
      ImplodeAppend(parts, [last], glue);
    }
  }

  /** Prefixing the first part prefixes the imploded string. */
  lemma ImplodePrefixFirst(x: string, parts: seq<string>, glue: string)
    requires |parts| >= 1
    ensures Implode([x + parts[0]] + parts[1..], glue) == x + Implode(parts, glue)
  {
    var q := [x + parts[0]] + parts[1..];
    assert q[1..] == parts[1..];
  }

  /** A character found in no part and not in the glue is not in the result. */
  lemma {:induction false} ImplodeAvoids(parts: seq<string>, glue: string, ch: char)
    requires forall i :: 0 <= i < |parts| ==> ch !in parts[i]
    requires ch !in glue
    ensures ch !in Implode(parts, glue)
  {
    if |parts| > 1 {
      ImplodeAvoids(parts[1..], glue, ch);
    }
  }

  /** `str_replace` of one character is `implode` after `explode`:
      the pieces between the `from` characters glued back with `to`. */
  lemma {:induction false} ReplaceIsImplodeExplode(s: string, from: char, to: char)
    ensures ReplaceChar(s, from, to) == Implode(Explode(s, from), [to])
  {
    if s != [] {
      var rest := Explode(s[1..], from);
      ReplaceIsImplodeExplode(s[1..], from, to);
      if s[0] == from {
        assert ([[]] + rest)[1..] == rest;
      } else {
        ImplodePrefixFirst([s[0]], rest, [to]);
      }
    }
  }

  /** Round trip: gluing the pieces of `explode` back with the separator gives `s`. */
  lemma ImplodeExplode(s: string, sep: char)
    ensures Implode(Explode(s, sep), [sep]) == s
  {
    ReplaceIsImplodeExplode(s, sep, sep);
    assert ReplaceChar(s, sep, sep) == s;
  }

  /** Exploding at the first separator splits off the piece before it. */
  lemma {:induction false} ExplodeAtFirst(a: string, b: string, sep: char)
    requires sep !in a
    ensures Explode(a + [sep] + b, sep) == [a] + Explode(b, sep)
  {
    var s := a + [sep] + b;
    if a == [] {
      assert s[1..] == b;
    } else {
      assert s[1..] == a[1..] + [sep] + b;
      ExplodeAtFirst(a[1..], b, sep);
      assert [a[0]] + a[1..] == a;
    }
  }

  /** Round trip the other way: pieces that do not contain the separator are
      recovered by `explode` from their `implode`. */
  lemma {:induction false} ExplodeImplode(parts: seq<string>, sep: char)
    requires |parts| >= 1
    requires forall i :: 0 <= i < |parts| ==> sep !in parts[i]
    ensures Explode(Implode(parts, [sep]), sep) == parts
  {
    if |parts| > 1 {
      ExplodeImplode(parts[1..], sep);
      ExplodeAtFirst(parts[0], Implode(parts[1..], [sep]), sep);
      assert parts[0] + [sep] + Implode(parts[1..], [sep]) == Implode(parts, [sep]);
      assert [parts[0]] + parts[1..] == parts;
    }
  }
}
