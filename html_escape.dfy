/** `escapeHtml` of frontend/script.js and frontend/script2.js (the two copies
    are identical): four global replacements, `&` first. */
module HtmlEscape {
  import opened JsValue

  /** `s.replace(/c/g, rep)`. */
  function ReplaceAll(s: string, c: char, rep: string): (r: string)
    ensures c !in rep ==> c !in r
    ensures forall x :: x in r && x !in rep ==> x in s && x != c
  {
    if s == [] then []
    else (if s[0] == c then rep else [s[0]]) + ReplaceAll(s[1..], c, rep)
  }

  /** The chain `.replace(/&/g, "&amp;").replace(/</g, "&lt;").replace(/>/g, "&gt;").replace(/"/g, "&quot;")`. */
  function EscapeText(s: string): (r: string)
    ensures '<' !in r && '>' !in r && '"' !in r
  {
    ReplaceAll(ReplaceAll(ReplaceAll(ReplaceAll(s, '&', "&amp;"), '<', "&lt;"), '>', "&gt;"), '"', "&quot;")
  }

  /** `escapeHtml(v)`: "" for falsy values other than the number 0, else the
      escaped `String(v)`. */
  function EscapeHtml(v: JsVal): (r: string)
    ensures v == Number(0) ==> r == "0"
    ensures !Truthy(v) && v != Number(0) ==> r == ""
    ensures '<' !in r && '>' !in r && '"' !in r
    ensures forall i :: 0 <= i < |r| && r[i] == '&' ==> EntityAt(r, i)
    ensures Unescape(r) == (if Truthy(v) || v == Number(0) then ToText(v) else "")
  {
    if !Truthy(v) && v != Number(0) then ""
    else
      var s := ToText(v);
      EscapeIsSinglePass(s);
      SinglePassHasNoSpecials(s);
      SinglePassAmpersandsAreEntities(s);
      UnescapeEscapeOnce(s);
      EscapeText(s)
  }

  /** The entity one character becomes. */
  function EscapeChar(c: char): string
  {
    if c == '&' then "&amp;"
    else if c == '<' then "&lt;"
    else if c == '>' then "&gt;"
    else if c == '"' then "&quot;"
    else [c]
  }

  /** A reference escaper that handles each character once, left to right. */
  function EscapeOnce(s: string): string
  {
    if s == [] then [] else EscapeChar(s[0]) + EscapeOnce(s[1..])
  }

  /** The decoder of the four entities, the partner of escaping. */
  function Unescape(t: string): string
  {
    if t == [] then []
    else if |t| >= 5 && t[..5] == "&amp;" then "&" + Unescape(t[5..])
    else if |t| >= 4 && t[..4] == "&lt;" then "<" + Unescape(t[4..])
    else if |t| >= 4 && t[..4] == "&gt;" then ">" + Unescape(t[4..])
    else if |t| >= 6 && t[..6] == "&quot;" then "\"" + Unescape(t[6..])
    else [t[0]] + Unescape(t[1..])
  }

  lemma {:induction false} ReplaceAllConcat(a: string, b: string, c: char, rep: string)
    ensures ReplaceAll(a + b, c, rep) == ReplaceAll(a, c, rep) + ReplaceAll(b, c, rep)
  {
    if a == [] {
      assert a + b == b;
    } else {
      assert (a + b)[1..] == a[1..] + b;
      ReplaceAllConcat(a[1..], b, c, rep);
    }
  }

  lemma {:induction false} ReplaceAllAbsent(s: string, c: char, rep: string)
    requires c !in s
    ensures ReplaceAll(s, c, rep) == s
  {
    if s != [] {
      ReplaceAllAbsent(s[1..], c, rep);
    }
  }

  lemma ReplaceAllSingle(x: char, c: char, rep: string)
    ensures ReplaceAll([x], c, rep) == if x == c then rep else [x]
  {
    assert [x][1..] == [];
  }

  /** The replaces after the one that produced `e` leave the entity alone. */
  lemma LaterReplacesKeep(e: string)
    requires '<' !in e && '>' !in e && '"' !in e
    ensures ReplaceAll(ReplaceAll(ReplaceAll(e, '<', "&lt;"), '>', "&gt;"), '"', "&quot;") == e
  {
    ReplaceAllAbsent(e, '<', "&lt;");
    ReplaceAllAbsent(e, '>', "&gt;");
    ReplaceAllAbsent(e, '"', "&quot;");
  }

  lemma EscapeTextChar(c: char)
    ensures EscapeText([c]) == EscapeChar(c)
  {
    ReplaceAllSingle(c, '&', "&amp;");
    if c == '&' {
      LaterReplacesKeep("&amp;");
    } else {
      ReplaceAllSingle(c, '<', "&lt;");
      if c == '<' {
        ReplaceAllAbsent("&lt;", '>', "&gt;");
        ReplaceAllAbsent("&lt;", '"', "&quot;");
      } else {
        ReplaceAllSingle(c, '>', "&gt;");
        if c == '>' {
          ReplaceAllAbsent("&gt;", '"', "&quot;");
        } else {
          ReplaceAllSingle(c, '"', "&quot;");
        }
      }
    }
  }

  lemma EscapeTextConcat(a: string, b: string)
    ensures EscapeText(a + b) == EscapeText(a) + EscapeText(b)
  {
    ReplaceAllConcat(a, b, '&', "&amp;");
    var a1, b1 := ReplaceAll(a, '&', "&amp;"), ReplaceAll(b, '&', "&amp;");
    ReplaceAllConcat(a1, b1, '<', "&lt;");
    var a2, b2 := ReplaceAll(a1, '<', "&lt;"), ReplaceAll(b1, '<', "&lt;");
    ReplaceAllConcat(a2, b2, '>', "&gt;");
    var a3, b3 := ReplaceAll(a2, '>', "&gt;"), ReplaceAll(b2, '>', "&gt;");
    ReplaceAllConcat(a3, b3, '"', "&quot;");
  }

  /** Replacing `&` first makes the chain escape every character exactly once. */
  lemma {:induction false} EscapeIsSinglePass(s: string)
    ensures EscapeText(s) == EscapeOnce(s)
  {
    if s != [] {
      assert s == [s[0]] + s[1..];
      EscapeTextConcat([s[0]], s[1..]);
      EscapeTextChar(s[0]);
      EscapeIsSinglePass(s[1..]);
    }
  }

  /** `t` holds one of the four entities at position `i`. */
  predicate EntityAt(t: string, i: nat)
  {
    || (i + 5 <= |t| && t[i..i + 5] == "&amp;")
    || (i + 4 <= |t| && t[i..i + 4] == "&lt;")
    || (i + 4 <= |t| && t[i..i + 4] == "&gt;")
    || (i + 6 <= |t| && t[i..i + 6] == "&quot;")
  }

  /** The escaped text has no `<`, `>` or `"`. */
  lemma {:induction false} SinglePassHasNoSpecials(s: string)
    ensures '<' !in EscapeOnce(s) && '>' !in EscapeOnce(s) && '"' !in EscapeOnce(s)
  {
    if s != [] {
      SinglePassHasNoSpecials(s[1..]);
    }
  }

  lemma EntityAtShift(head: string, rest: string, j: nat)
    requires EntityAt(rest, j)
    ensures EntityAt(head + rest, |head| + j)
  {
    if j + 4 <= |rest| { SliceShift(head, rest, j, 4); }
    if j + 5 <= |rest| { SliceShift(head, rest, j, 5); }
    if j + 6 <= |rest| { SliceShift(head, rest, j, 6); }
  }

  lemma SliceShift(head: string, rest: string, j: nat, n: nat)
    requires j + n <= |rest|
    ensures (head + rest)[|head| + j..|head| + j + n] == rest[j..j + n]
  {
  }

  /** Every `&` in the escaped text starts one of the four entities. */
  lemma {:induction false} SinglePassAmpersandsAreEntities(s: string)
    ensures forall i :: 0 <= i < |EscapeOnce(s)| && EscapeOnce(s)[i] == '&' ==> EntityAt(EscapeOnce(s), i)
  {
    if s != [] {
      SinglePassAmpersandsAreEntities(s[1..]);
      var head, rest := EscapeChar(s[0]), EscapeOnce(s[1..]);
      var t := head + rest;
      assert t == EscapeOnce(s);
      forall i | 0 <= i < |t| && t[i] == '&' ensures EntityAt(t, i) {
        if i < |head| {
          assert i == 0 && t[..|head|] == head;
        } else {
          assert t[i] == rest[i - |head|];
          EntityAtShift(head, rest, i - |head|);
        }
      }
    }
  }

  /** A text that starts with `p` agrees with `p` at each position of `p`. */
  lemma StartsWith(t: string, p: string, k: nat)
    ensures k < |p| <= |t| && t[..|p|] == p ==> t[k] == p[k]
  {
  }

  lemma UnescapeAmp(rest: string)
    ensures Unescape("&amp;" + rest) == "&" + Unescape(rest)
  {
    var t := "&amp;" + rest;
    assert t[..5] == "&amp;" && t[5..] == rest;
  }

  lemma UnescapeLt(rest: string)
    ensures Unescape("&lt;" + rest) == "<" + Unescape(rest)
  {
    var t := "&lt;" + rest;
    StartsWith(t, "&amp;", 1);
    assert t[1] == 'l';
    assert t[..4] == "&lt;" && t[4..] == rest;
  }

  lemma UnescapeGt(rest: string)
    ensures Unescape("&gt;" + rest) == ">" + Unescape(rest)
  {
    var t := "&gt;" + rest;
    StartsWith(t, "&amp;", 1);
    StartsWith(t, "&lt;", 1);
    assert t[1] == 'g';
    assert t[..4] == "&gt;" && t[4..] == rest;
  }

  lemma UnescapeQuot(rest: string)
    ensures Unescape("&quot;" + rest) == "\"" + Unescape(rest)
  {
    var t := "&quot;" + rest;
    StartsWith(t, "&amp;", 1);
    StartsWith(t, "&lt;", 1);
    StartsWith(t, "&gt;", 1);
    assert t[1] == 'q';
    assert t[..6] == "&quot;" && t[6..] == rest;
  }

  lemma UnescapePlain(c: char, rest: string)
    requires c != '&'
    ensures Unescape([c] + rest) == [c] + Unescape(rest)
  {
    var t := [c] + rest;
    StartsWith(t, "&amp;", 0);
    StartsWith(t, "&lt;", 0);
    StartsWith(t, "&gt;", 0);
    StartsWith(t, "&quot;", 0);
    assert t[0] == c && t[1..] == rest;
  }

  /** Decoding undoes escaping. */
  lemma {:induction false} UnescapeEscapeOnce(s: string)
    ensures Unescape(EscapeOnce(s)) == s
  {
    if s != [] {
      var c, rest := s[0], EscapeOnce(s[1..]);
      UnescapeEscapeOnce(s[1..]);
      if c == '&' {
        UnescapeAmp(rest);
      } else if c == '<' {
        UnescapeLt(rest);
      } else if c == '>' {
        UnescapeGt(rest);
      } else if c == '"' {
        UnescapeQuot(rest);
      } else {
        UnescapePlain(c, rest);
      }
      assert s == [c] + s[1..];
    }
  }

  /** Text without `&`, `<`, `>` or `"` passes through unchanged. */
  lemma PlainTextUnchanged(s: string)
    requires '&' !in s && '<' !in s && '>' !in s && '"' !in s
    ensures EscapeText(s) == s
  {
    ReplaceAllAbsent(s, '&', "&amp;");
    ReplaceAllAbsent(s, '<', "&lt;");
    ReplaceAllAbsent(s, '>', "&gt;");
    ReplaceAllAbsent(s, '"', "&quot;");
  }

  /** Escaping loses nothing: different texts escape differently. */
  lemma EscapeTextInjective(a: string, b: string)
    requires EscapeText(a) == EscapeText(b)
    ensures a == b
  {
    EscapeIsSinglePass(a);
    EscapeIsSinglePass(b);
    UnescapeEscapeOnce(a);
    UnescapeEscapeOnce(b);
  }
}
