/**
  `escapeHTML`: the page's only defence against markup in text that comes
  from the user or from the AI service. Each of `& < > " '` is replaced by a
  fixed entity and every other character is copied through; the replacement
  never re-scans what it inserted, so escaping is a map-then-flatten over the
  characters. `Unescape` reads the five entities back and is proved to be the
  exact inverse.
 */
module Escape {
  import opened JsString

  const AmpEntity: string := "&amp;"
  const LtEntity: string := "&lt;"
  const GtEntity: string := "&gt;"
  const QuotEntity: string := "&quot;"
  const AposEntity: string := "&#39;"

  /** The five characters the escaping pattern matches. */
  predicate IsSpecial(c: char)
  {
    c == '&' || c == '<' || c == '>' || c == '"' || c == '\''
  }

  /** The four special characters that never survive escaping; the fifth,
      `&`, still opens every entity. */
  predicate IsMarkup(c: char)
  {
    c == '<' || c == '>' || c == '"' || c == '\''
  }

  /** The replacement for one character: its entity when it is special, the
      character itself otherwise. */
  function EscapeChar(c: char): (e: string)
    ensures IsSpecial(c) ==> |e| > 1 && e[0] == '&' && e[|e| - 1] == ';'
    ensures !IsSpecial(c) ==> e == [c]
  {
    if c == '&' then AmpEntity
    else if c == '<' then LtEntity
    else if c == '>' then GtEntity
    else if c == '"' then QuotEntity
    else if c == '\'' then AposEntity
    else [c]
  }

  /** The string case of escapeHTML. */
  function EscapeChars(s: string): (r: string)
    ensures |r| >= |s|
    ensures forall i | 0 <= i < |r| :: !IsMarkup(r[i])
  {
    if s == [] then [] else EscapeChar(s[0]) + EscapeChars(s[1..])
  }

  /** escapeHTML: a value that is not a string gives the empty string; a
      string gives text with no markup character that decodes back to it. */
  function EscapeHTML(x: JsValue): (r: string)
    ensures x.NotStr? ==> r == []
    ensures x.Str? ==> Unescape(r) == Some(x.s)
    ensures forall i | 0 <= i < |r| :: !IsMarkup(r[i])
  {
    match x
    case NotStr => []
    case Str(s) => UnescapeEscape(s); EscapeChars(s)
  }

  /** The character whose entity `r` starts with, if any. */
  function EntityAt(r: string): (o: Option<char>)
    ensures o.Some? ==> IsSpecial(o.value) && StartsWith(r, EscapeChar(o.value))
  {
    if StartsWith(r, AmpEntity) then Some('&')
    else if StartsWith(r, LtEntity) then Some('<')
    else if StartsWith(r, GtEntity) then Some('>')
    else if StartsWith(r, QuotEntity) then Some('"')
    else if StartsWith(r, AposEntity) then Some('\'')
    else None
  }

  /** Decodes the five entities; fails on a bare markup character or on an
      `&` that does not open one of them. */
  function Unescape(r: string): (o: Option<string>)
    decreases |r|
  {
    if r == [] then Some([])
    else if r[0] == '&' then
      match EntityAt(r)
      case None => None
      case Some(c) =>
        match Unescape(r[|EscapeChar(c)|..])
        case None => None
        case Some(t) => Some([c] + t)
    else if IsMarkup(r[0]) then None
    else
      match Unescape(r[1..])
      case None => None
      case Some(t) => Some([r[0]] + t)
  }

  /** Escaping one character and reading the entity back gives the character. */
  lemma EntityAtEscapeChar(c: char, rest: string)
    requires IsSpecial(c)
    ensures EntityAt(EscapeChar(c) + rest) == Some(c)
  {
    var r := EscapeChar(c) + rest;
    assert r[..|EscapeChar(c)|] == EscapeChar(c);
    assert r[1] == EscapeChar(c)[1];
  }

  /** Decoding undoes escaping. */
  lemma {:induction false} UnescapeEscape(s: string)
    ensures Unescape(EscapeChars(s)) == Some(s)
  {
    if s != [] {
      var e := EscapeChar(s[0]);
      var rest := EscapeChars(s[1..]);
      var r := e + rest;
      UnescapeEscape(s[1..]);
      if IsSpecial(s[0]) {
        EntityAtEscapeChar(s[0], rest);
        assert r[|e|..] == rest;
      } else {
        assert r[1..] == rest;
      }
      assert [s[0]] + s[1..] == s;
    }
  }

  /** Escaping reproduces every text that decodes: the escaped texts are
      exactly those `Unescape` accepts, and each decodes to one string only. */
  lemma {:induction false} EscapeUnescape(r: string, s: string)
    requires Unescape(r) == Some(s)
    ensures EscapeChars(s) == r
    decreases |r|
  {
    if r != [] {
      var c := if r[0] == '&' then EntityAt(r).value else r[0];
      var n := |EscapeChar(c)|;
      assert r[0] != '&' ==> !IsSpecial(c) && n == 1;
      var t := Unescape(r[n..]).value;
      assert s == [c] + t;
      EscapeUnescape(r[n..], t);
      assert s[0] == c && s[1..] == t;
      assert EscapeChars(s) == EscapeChar(c) + EscapeChars(t);
      assert r[..n] == EscapeChar(c);
      assert r == r[..n] + r[n..];
    }
  }

  /** Two strings escape alike only when they are equal. */
  lemma EscapeInjective(a: string, b: string)
    requires EscapeChars(a) == EscapeChars(b)
    ensures a == b
  {
    UnescapeEscape(a);
    UnescapeEscape(b);
  }

  /** Escaping distributes over concatenation. */
  lemma {:induction false} EscapeAppend(a: string, b: string)
    ensures EscapeChars(a + b) == EscapeChars(a) + EscapeChars(b)
  {
    if a == [] {
      assert a + b == b;
    } else {
      assert (a + b)[0] == a[0] && (a + b)[1..] == a[1..] + b;
      EscapeAppend(a[1..], b);
    }
  }

  /** Each entity is longer than its character by 4, 3, 3, 5 or 4. */
  lemma {:induction false} EscapeLength(s: string)
    ensures |EscapeChars(s)| == |s| + 4 * Count(s, '&') + 3 * Count(s, '<')
      + 3 * Count(s, '>') + 5 * Count(s, '"') + 4 * Count(s, '\'')
  {
    if s != [] {
      EscapeLength(s[1..]);
    }
  }

  /** A string is its own escape exactly when it has no special character. */
  lemma {:induction false} EscapeIdentity(s: string)
    ensures EscapeChars(s) == s <==> forall i | 0 <= i < |s| :: !IsSpecial(s[i])
  {
    if forall i | 0 <= i < |s| :: !IsSpecial(s[i]) {
      NoSpecialUnchanged(s);
    } else {
      var i :| 0 <= i < |s| && IsSpecial(s[i]);
      EscapeLength(s);
      CountZero(s, s[i]);
    }
  }

  lemma {:induction false} NoSpecialUnchanged(s: string)
    requires forall i | 0 <= i < |s| :: !IsSpecial(s[i])
    ensures EscapeChars(s) == s
  {
    if s != [] {
      NoSpecialUnchanged(s[1..]);
      assert [s[0]] + s[1..] == s;
    }
  }

  /** `r` starts with one of the five entities. */
  predicate StartsWithEntity(r: string)
  {
    StartsWith(r, AmpEntity) || StartsWith(r, LtEntity) || StartsWith(r, GtEntity)
    || StartsWith(r, QuotEntity) || StartsWith(r, AposEntity)
  }

  /** Every `&` in an escaped text opens one of the five entities. */
  lemma {:induction false} AmpersandsOpenEntities(s: string)
    ensures forall i | 0 <= i < |EscapeChars(s)| && EscapeChars(s)[i] == '&' ::
      StartsWithEntity(EscapeChars(s)[i..])
  {
    if s != [] {
      var e := EscapeChar(s[0]);
      var rest := EscapeChars(s[1..]);
      var r := e + rest;
      AmpersandsOpenEntities(s[1..]);
      forall i | 0 <= i < |r| && r[i] == '&'
        ensures StartsWithEntity(r[i..])
      {
        if i < |e| {
          assert IsSpecial(s[0]) && i == 0;
          assert r[..|e|] == e;
        } else {
          assert r[i..] == rest[i - |e|..];
        }
      }
    }
  }
}
