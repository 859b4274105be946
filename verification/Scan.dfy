/** How one pass walks over printed JSON: keys and values are hit or missed as a whole. */
module Scan {
  import opened Regex
  import opened Json

  // A member name as the passes use them.
  predicate IsName(f: string) { f != "" && 'a' <= f[0] <= 'z' && Plain(f) }

  function KeyOf(p: Pattern): string { match p case Model(_) => "model" case _ => p.field }

  // What may follow a printed string.
  predicate Delimited(rest: string) { rest == "" || rest[0] in {',', ']', '}', ':'} }

  lemma NoQuoteNoKey(f: string, s: string)
    requires s == "" || s[0] != '"'
    ensures MatchKey(f, s) == 0
  {
  }

  // The closing quote of a string does not start a key.
  lemma ClosingQuoteNoKey(f: string, rest: string)
    requires IsName(f) && Delimited(rest)
    ensures MatchKey(f, "\"" + rest) == 0
  {
    if rest != "" {
      assert Quoted(f)[1] == f[0];
      assert ("\"" + rest)[1] == rest[0] != f[0];
    }
  }

  lemma OtherKey(f: string, k: string, rest: string)
    requires Plain(f) && Plain(k) && f != k
    ensures MatchKey(f, Quoted(k) + rest) == 0
  {
    var s := Quoted(k) + rest;
    var n := if |f| < |k| then |f| else |k|;
    if f[..n] != k[..n] {
      var i :| 0 <= i < n && f[..n][i] != k[..n][i];
      assert Quoted(f)[i + 1] == f[i] && s[i + 1] == k[i];
    } else if |f| < |k| {
      assert Quoted(f)[|f| + 1] == '"' && s[|f| + 1] == k[|f|];
    } else {
      assert f[..n] == k;
      assert Quoted(f)[|k| + 1] == f[|k|] && s[|k| + 1] == '"';
    }
  }

  // A string value is not followed by a colon.
  lemma ValueNoKey(f: string, v: Json, rest: string)
    requires IsName(f) && Printable(v) && Ends(rest)
    ensures MatchKey(f, Print(v) + rest) == 0
  {
    ValueStart(v);
    var s := Print(v) + rest;
    assert s[0] == Print(v)[0];
    if v.Text? {
      if v.s == f {
        assert s[|Quoted(f)|..] == rest;
      } else {
        OtherKey(f, v.s, rest);
      }
    } else {
      NoQuoteNoKey(f, s);
    }
  }

  lemma KeyIsHit(f: string, rest: string)
    requires rest != "" && !IsSpace(rest[0])
    ensures MatchKey(f, Quoted(f) + (":" + rest)) == |f| + 3
  {
    var s := Quoted(f) + (":" + rest);
    assert s[|Quoted(f)|..] == ":" + rest;
    assert s[|f| + 3..] == rest;
  }

  // Inside a string no key starts, not even after spaces that run up to its closing quote.
  lemma {:induction false} SpacesNoKey(f: string, s: string, rest: string)
    requires IsName(f) && Plain(s) && Delimited(rest)
    ensures
      var text := s + ("\"" + rest);
      MatchKey(f, text[Spaces(text)..]) == 0
  {
    hide MatchKey, Quoted;
    var text := s + ("\"" + rest);
    if s == "" {
      assert text == "\"" + rest;
      ClosingQuoteNoKey(f, rest);
    } else if IsSpace(s[0]) {
      var tail := s[1..] + ("\"" + rest);
      assert text[1..] == tail;
      SpacesNoKey(f, s[1..], rest);
      assert text[1 + Spaces(tail)..] == tail[Spaces(tail)..];
    } else {
      assert text[0] == s[0];
      NoQuoteNoKey(f, text);
    }
  }

  lemma NoKeyNoMatch(p: Pattern, s: string)
    requires MatchKey(KeyOf(p), s) == 0
    requires p.Lead? ==> s == "" || s[0] != ','
    ensures Match(p, s) == 0
  {
  }

  lemma LeadNoKey(f: string, s: string)
    requires s != "" && s[0] == ','
    requires MatchKey(f, s[1 + Spaces(s[1..])..]) == 0
    ensures Match(Lead(f), s) == 0
  {
    hide MatchKey, Spaces;
  }

  lemma InsideNoMatch(p: Pattern, s: string, rest: string)
    requires IsName(KeyOf(p)) && Plain(s) && Delimited(rest)
    ensures Match(p, s + ("\"" + rest)) == 0
  {
    hide Match, MatchKey, Spaces, MatchMember, Quoted;
    var text := s + ("\"" + rest);
    if s == "" {
      assert text == "\"" + rest;
      ClosingQuoteNoKey(KeyOf(p), rest);
      NoKeyNoMatch(p, text);
    } else if s[0] == ',' && p.Lead? {
      assert text[1..] == s[1..] + ("\"" + rest);
      SpacesNoKey(p.field, s[1..], rest);
      var tail := text[1..];
      assert text[1 + Spaces(tail)..] == tail[Spaces(tail)..];
      LeadNoKey(p.field, text);
    } else {
      NoQuoteNoKey(KeyOf(p), text);
      NoKeyNoMatch(p, text);
    }
  }

  lemma {:induction false} SkipInside(p: Pattern, s: string, rest: string)
    requires IsName(KeyOf(p)) && Plain(s) && Delimited(rest)
    ensures ReplaceAll(p, s + ("\"" + rest)) == s + ("\"" + ReplaceAll(p, rest))
  {
    hide ReplaceAll, Match;
    InsideNoMatch(p, s, rest);
    if s == "" {
      assert s + ("\"" + rest) == ['"'] + rest;
      Emit(p, '"', rest);
      assert s + ("\"" + ReplaceAll(p, rest)) == ['"'] + ReplaceAll(p, rest);
    } else {
      var c, tail := s[0], s[1..];
      assert s == [c] + tail;
      Reassociate(c, tail, "\"" + rest);
      Reassociate(c, tail, "\"" + ReplaceAll(p, rest));
      Emit(p, c, tail + ("\"" + rest));
      SkipInside(p, tail, rest);
    }
  }

  /** A string no match starts at goes through unchanged, whatever commas and spaces it holds. */
  lemma SkipString(p: Pattern, s: string, rest: string)
    requires IsName(KeyOf(p)) && Plain(s) && Delimited(rest)
    requires Match(p, Quoted(s) + rest) == 0
    ensures ReplaceAll(p, Quoted(s) + rest) == Quoted(s) + ReplaceAll(p, rest)
  {
    Unquote(s, rest);
    Unquote(s, ReplaceAll(p, rest));
    Emit(p, '"', s + ("\"" + rest));
    SkipInside(p, s, rest);
  }

  lemma Unquote(s: string, rest: string)
    ensures Quoted(s) + rest == ['"'] + (s + ("\"" + rest))
  {
  }

  // A separating comma is only ever consumed together with the member after it.
  lemma SkipComma(p: Pattern, rest: string)
    requires p.Lead? ==> rest != "" && !IsSpace(rest[0]) && MatchMember(p.field, rest) == 0
    ensures ReplaceAll(p, "," + rest) == "," + ReplaceAll(p, rest)
  {
    var s := "," + rest;
    assert s[1..] == rest;
    if !p.Lead? {
      NoQuoteNoKey(KeyOf(p), s);
      NoKeyNoMatch(p, s);
    }
    Emit(p, ',', rest);
  }
}
