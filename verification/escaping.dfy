/** A reversible escaping that keeps '.' and ' ' out of a token segment, so that segments can be
    joined with '.' and the token can travel after "Bearer " in an Authorization header. */
module Escaping {
  import opened Wrappers

  function EscapeChar(c: char): (r: string)
    ensures '.' !in r && ' ' !in r
  {
    if c == '\\' then "\\\\"
    else if c == '.' then "\\,"
    else if c == ' ' then "\\_"
    else [c]
  }

  /** The character an escape code after a backslash stands for. */
  function Unescaped(code: char): Option<char> {
    if code == '\\' then Some('\\')
    else if code == ',' then Some('.')
    else if code == '_' then Some(' ')
    else None
  }

  function Escape(s: string): (r: string)
    ensures '.' !in r && ' ' !in r
    decreases |s|
  {
    if |s| == 0 then "" else EscapeChar(s[0]) + Escape(s[1..])
  }

  /** Undoes `Escape`; a dangling backslash or an unknown escape code is rejected. */
  function Unescape(s: string): (r: Option<string>)
    decreases |s|
  {
    if |s| == 0 then Some("")
    else if s[0] != '\\' then
      match Unescape(s[1..])
      case Some(t) => Some([s[0]] + t)
      case None => None
    else if |s| == 1 then None
    else
      match (Unescaped(s[1]), Unescape(s[2..]))
      case (Some(c), Some(t)) => Some([c] + t)
      case _ => None
  }

  lemma {:induction false} UnescapeEscape(s: string)
    ensures Unescape(Escape(s)) == Some(s)
    decreases |s|
  {
    if |s| > 0 {
      var e := Escape(s);
      var tail := Escape(s[1..]);
      UnescapeEscape(s[1..]);
      assert e == EscapeChar(s[0]) + tail;
      assert s == [s[0]] + s[1..];
      if s[0] == '\\' || s[0] == '.' || s[0] == ' ' {
        assert e[0] == '\\' && e[2..] == tail;
      } else {
        assert e[0] == s[0] && e[1..] == tail;
      }
    }
  }
}
