/**
 * What the admin pages share when they turn server data into HTML: the `escapeHtml` helper
 * (one definition for the copies in the calendar, records and new-requests pages), the
 * clock-in/clock-out label, and the outcomes of fetching the by-date list.
 */
module Markup {
  import opened Common
  import opened Strings
  import opened Schema
  import Aggregation

  /** The characters `escapeHtml` replaces. */
  predicate Special(c: char) {
    c == '&' || c == '<' || c == '>' || c == '"' || c == '\'' || c == '`'
  }

  /** The characters that never appear raw in escaped text. */
  predicate Markup(c: char) {
    c == '<' || c == '>' || c == '"' || c == '\'' || c == '`'
  }

  function Entity(c: char): (r: string)
    ensures forall i :: 0 <= i < |r| ==> !Markup(r[i])
    ensures |r| >= 1 && (r[0] == '&' <==> Special(c))
  {
    if c == '&' then "&amp;"
    else if c == '<' then "&lt;"
    else if c == '>' then "&gt;"
    else if c == '"' then "&quot;"
    else if c == '\'' then "&#39;"
    else if c == '`' then "&#96;"
    else [c]
  }

  /** `s.replace(/[&<>"'`]/g, ...)`: each special character by its entity, all others copied. */
  function EscapeText(s: string): (r: string)
    ensures forall i :: 0 <= i < |r| ==> !Markup(r[i])
    ensures |r| >= |s|
  {
    if s == [] then []
    else
      var head := Entity(s[0]);
      var tail := EscapeText(s[1..]);
      assert forall i :: |head| <= i < |head + tail| ==> (head + tail)[i] == tail[i - |head|];
      head + tail
  }

  /** Text without special characters is left exactly as it is. */
  lemma {:induction false} EscapePlain(s: string)
    requires forall i :: 0 <= i < |s| ==> !Special(s[i])
    ensures EscapeText(s) == s
  {
    if s != [] {
      EscapePlain(s[1..]);
    }
  }

  /** Escaping works character by character, so it distributes over concatenation. */
  lemma {:induction false} EscapeConcat(a: string, b: string)
    ensures EscapeText(a + b) == EscapeText(a) + EscapeText(b)
  {
    if a == [] {
      assert a + b == b;
    } else {
      assert (a + b)[0] == a[0] && (a + b)[1..] == a[1..] + b;
      EscapeConcat(a[1..], b);
    }
  }

  /** The browser's reading of the six entities: the inverse of escaping. */
  function Unescape(s: string): string
    decreases |s|
  {
    if s == [] then []
    else if StartsWith(s, "&amp;") then "&" + Unescape(s[5..])
    else if StartsWith(s, "&lt;") then "<" + Unescape(s[4..])
    else if StartsWith(s, "&gt;") then ">" + Unescape(s[4..])
    else if StartsWith(s, "&quot;") then "\"" + Unescape(s[6..])
    else if StartsWith(s, "&#39;") then "'" + Unescape(s[5..])
    else if StartsWith(s, "&#96;") then "`" + Unescape(s[5..])
    else [s[0]] + Unescape(s[1..])
  }

  /** A text that differs from `p` at position `k` does not start with `p`. */
  lemma NotPrefix(s: string, p: string, k: nat)
    requires k < |p| && k < |s| && s[k] != p[k]
    ensures !StartsWith(s, p)
  {
    if |p| <= |s| {
      assert s[..|p|][k] == s[k];
    }
  }

  lemma PrefixOf(e: string, rest: string)
    ensures StartsWith(e + rest, e) && (e + rest)[|e|..] == rest
  {
    assert (e + rest)[..|e|] == e;
  }

  lemma UnescapeEntity(c: char, rest: string)
    ensures Unescape(Entity(c) + rest) == [c] + Unescape(rest)
  {
    var e := Entity(c);
    var s := e + rest;
    PrefixOf(e, rest);
    if c == '&' {
    } else if c == '<' {
      NotPrefix(s, "&amp;", 1);
    } else if c == '>' {
      NotPrefix(s, "&amp;", 1); NotPrefix(s, "&lt;", 1);
    } else if c == '"' {
      NotPrefix(s, "&amp;", 1); NotPrefix(s, "&lt;", 1); NotPrefix(s, "&gt;", 1);
    } else if c == '\'' {
      NotPrefix(s, "&amp;", 1); NotPrefix(s, "&lt;", 1); NotPrefix(s, "&gt;", 1); NotPrefix(s, "&quot;", 1);
    } else if c == '`' {
      NotPrefix(s, "&amp;", 1); NotPrefix(s, "&lt;", 1); NotPrefix(s, "&gt;", 1); NotPrefix(s, "&quot;", 1);
      NotPrefix(s, "&#39;", 2);
    } else {
      NotPrefix(s, "&amp;", 0); NotPrefix(s, "&lt;", 0); NotPrefix(s, "&gt;", 0); NotPrefix(s, "&quot;", 0);
      NotPrefix(s, "&#39;", 0); NotPrefix(s, "&#96;", 0);
      assert s[1..] == rest;
    }
  }

  /** Escaped text reads back as the original: escaping loses nothing. */
  lemma {:induction false} UnescapeEscape(s: string)
    ensures Unescape(EscapeText(s)) == s
  {
    if s != [] {
      UnescapeEntity(s[0], EscapeText(s[1..]));
      UnescapeEscape(s[1..]);
      assert s == [s[0]] + s[1..];
    }
  }

  /** `escapeHtml(s)`: '' for a falsy value, the escaped text otherwise. */
  function EscapeHtml(s: Option<string>): (r: string)
    ensures !Truthy(s) ==> r == ""
    ensures Truthy(s) ==> r == EscapeText(s.value)
  {
    if Truthy(s) then EscapeText(s.value) else ""
  }

  /** Escaping is injective: different texts never render the same. */
  lemma EscapeInjective(a: string, b: string)
    requires EscapeText(a) == EscapeText(b)
    ensures a == b
  {
    UnescapeEscape(a);
    UnescapeEscape(b);
  }

  /** `status === 'logged_in' ? 'Clock In' : 'Clock Out'`. */
  function StatusLabel(status: Status): (r: string)
    ensures r == "Clock In" <==> status == LoggedIn
    ensures status == LoggedOut ==> r == "Clock Out"
  {
    if status == LoggedIn then "Clock In" else "Clock Out"
  }

  /**
   * What a page's request for the by-date list ends in: a non-OK status, a thrown error
   * (network failure or unreadable JSON), or a body whose `list` may be missing.
   */
  datatype ListResponse =
    | HttpError(status: int)
    | Threw
    | Body(list: Option<seq<Aggregation.DailyRow>>)

  /** `j.list || []`. */
  function ListOf(list: Option<seq<Aggregation.DailyRow>>): seq<Aggregation.DailyRow> {
    if list.Some? then list.value else []
  }
}
