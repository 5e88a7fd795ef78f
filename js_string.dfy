/**
  JavaScript values as the page script sees them, and the built-in string
  operations it relies on (`startsWith`, `includes`, `trim`), written out over
  `seq<char>`.
 */
module JsString {

  datatype Option<+T> = None | Some(value: T)

  /** A value that may or may not be a JavaScript string: text parsed from
      JSON can put any value in a field that is meant to hold text. */
  datatype JsValue = Str(s: string) | NotStr

  /** `p` is a prefix of `s`. */
  predicate StartsWith(s: string, p: string)
  {
    |p| <= |s| && s[..|p|] == p
  }

  /** Number of occurrences of `c` in `s`. */
  function Count(s: string, c: char): nat
  {
    if s == [] then 0 else (if s[0] == c then 1 else 0) + Count(s[1..], c)
  }

  lemma {:induction false} CountAppend(a: string, b: string, c: char)
    ensures Count(a + b, c) == Count(a, c) + Count(b, c)
  {
    if a == [] {
      assert a + b == b;
    } else {
      assert (a + b)[1..] == a[1..] + b;
      CountAppend(a[1..], b, c);
    }
  }

  /** A character has no occurrence exactly when no position holds it. */
  lemma {:induction false} CountZero(s: string, c: char)
    ensures Count(s, c) == 0 <==> forall i | 0 <= i < |s| :: s[i] != c
  {
    if s != [] {
      CountZero(s[1..], c);
      assert forall i | 1 <= i < |s| :: s[i] == s[1..][i - 1];
    }
  }

  /** Position of the first `c` in `s`, or `|s|` when there is none. */
  function IndexOf(s: string, c: char): (k: nat)
    ensures k <= |s|
    ensures forall j | 0 <= j < k :: s[j] != c
    ensures k < |s| ==> s[k] == c
  {
    if s == [] then 0
    else if s[0] == c then 0
    else 1 + IndexOf(s[1..], c)
  }

  /** `sub` occurs in `s` starting at position `i`. */
  ghost predicate OccursAt(s: string, sub: string, i: int)
  {
    0 <= i && i + |sub| <= |s| && s[i..i + |sub|] == sub
  }

  /** String.prototype.includes: `sub` occurs in `s` as a contiguous run. */
  predicate Includes(s: string, sub: string)
    ensures sub == [] ==> Includes(s, sub)
    ensures Includes(s, sub) ==> |sub| <= |s|
    decreases |s|
  {
    StartsWith(s, sub) || (s != [] && Includes(s[1..], sub))
  }

  /** `Includes` agrees with the positional definition of a substring. */
  lemma {:induction false} IncludesIffOccurs(s: string, sub: string)
    ensures Includes(s, sub) <==> exists i :: OccursAt(s, sub, i)
  {
    if StartsWith(s, sub) {
      assert OccursAt(s, sub, 0);
    } else if s != [] {
      IncludesIffOccurs(s[1..], sub);
      if Includes(s[1..], sub) {
        var j :| OccursAt(s[1..], sub, j);
        assert s[j + 1..j + 1 + |sub|] == s[1..][j..j + |sub|];
        assert OccursAt(s, sub, j + 1);
      }
      if exists i :: OccursAt(s, sub, i) {
        var i :| OccursAt(s, sub, i);
        assert i != 0;
        assert s[1..][i - 1..i - 1 + |sub|] == s[i..i + |sub|];
        assert OccursAt(s[1..], sub, i - 1);
      }
    }
  }

  /** A string cannot include a text one of whose characters it lacks. */
  lemma {:induction false} MissingCharExcludes(s: string, sub: string, k: nat)
    requires k < |sub| && sub[k] !in s
    ensures !Includes(s, sub)
  {
    if s != [] {
      assert sub[k] !in s[1..];
      MissingCharExcludes(s[1..], sub, k);
    } else {
      assert !StartsWith(s, sub);
    }
  }

  /** The characters String.prototype.trim removes: the ECMAScript
      WhiteSpace (including the Unicode space separators) and
      LineTerminator characters. */
  predicate IsJsWhitespace(c: char)
  {
    var n := c as int;
    n == 0x09 || n == 0x0A || n == 0x0B || n == 0x0C || n == 0x0D || n == 0x20
    || n == 0xA0 || n == 0x1680 || (0x2000 <= n <= 0x200A)
    || n == 0x2028 || n == 0x2029 || n == 0x202F || n == 0x205F
    || n == 0x3000 || n == 0xFEFF
  }

  ghost predicate AllWhitespace(s: string)
  {
    forall i | 0 <= i < |s| :: IsJsWhitespace(s[i])
  }

  /** Index of the first character of `s` that is not whitespace, or `|s|`. */
  function TrimStartIndex(s: string): (lo: nat)
    ensures lo <= |s|
    ensures forall i | 0 <= i < lo :: IsJsWhitespace(s[i])
    ensures lo < |s| ==> !IsJsWhitespace(s[lo])
  {
    if s == [] || !IsJsWhitespace(s[0]) then 0 else 1 + TrimStartIndex(s[1..])
  }

  /** One past the last character of `s` that is not whitespace, or 0. */
  function TrimEndIndex(s: string): (hi: nat)
    ensures hi <= |s|
    ensures forall i | hi <= i < |s| :: IsJsWhitespace(s[i])
    ensures hi > 0 ==> !IsJsWhitespace(s[hi - 1])
  {
    if s == [] || !IsJsWhitespace(s[|s| - 1]) then |s| else TrimEndIndex(s[..|s| - 1])
  }

  /** `r` is `s` with a whitespace-only run removed from each end, the first
      one ending at `lo`. */
  ghost predicate IsCore(s: string, r: string, lo: int)
  {
    0 <= lo && lo + |r| <= |s| && s[lo..lo + |r|] == r
    && (forall i | 0 <= i < lo :: IsJsWhitespace(s[i]))
    && (forall i | lo + |r| <= i < |s| :: IsJsWhitespace(s[i]))
  }

  /** String.prototype.trim: the text between the first and the last
      character that is not whitespace. */
  function Trim(s: string): (r: string)
    ensures exists lo :: IsCore(s, r, lo)
    ensures r == [] <==> AllWhitespace(s)
    ensures r == [] || (!IsJsWhitespace(r[0]) && !IsJsWhitespace(r[|r| - 1]))
  {
    var lo := TrimStartIndex(s);
    var hi := TrimEndIndex(s);
    if hi <= lo then
      assert hi == 0;
      assert IsCore(s, [], lo);
      []
    else
      assert IsCore(s, s[lo..hi], lo);
      s[lo..hi]
  }

  /** Trimming an already trimmed text changes nothing. */
  lemma TrimIdempotent(s: string)
    ensures Trim(Trim(s)) == Trim(s)
  {
  }
}
