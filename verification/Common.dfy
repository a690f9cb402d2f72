/** Small definitions that several modules use. */
module Common {
  datatype Option<+T> = None | Some(value: T)

  predicate IsDigit(ch: char) {
    '0' <= ch <= '9'
  }

  /** A number in decimal. */
  function Decimal(n: nat): (s: string)
    ensures s != "" && forall k :: 0 <= k < |s| ==> IsDigit(s[k])
  {
    var last := ['0' + (n % 10) as char];
    if n < 10 then last else Decimal(n / 10) + last
  }

  // ---------------------------------------------------------------- reading text

  /** Reads `text` off the front of `s`. */
  function Skip(s: string, text: string): Option<string> {
    if text <= s then Some(s[|text|..]) else None
  }

  /** The text up to the first `stop`, and what follows it. */
  function UpTo(s: string, stop: char): (r: Option<(string, string)>)
    ensures r.Some? ==> stop !in r.value.0
  {
    if s == "" then None
    else if s[0] == stop then Some(("", s[1..]))
    else match UpTo(s[1..], stop)
      case None => None
      case Some((text, rest)) => Some(([s[0]] + text, rest))
  }

  lemma SkipAppended(text: string, rest: string)
    ensures Skip(text + rest, text) == Some(rest)
  {
    assert (text + rest)[|text|..] == rest;
  }

  lemma {:induction false} UpToStop(text: string, stop: char, rest: string)
    requires forall k :: 0 <= k < |text| ==> text[k] != stop
    ensures UpTo(text + ([stop] + rest), stop) == Some((text, rest))
  {
    var s := text + ([stop] + rest);
    if text == "" {
      assert s == [stop] + rest;
      assert s[1..] == rest;
    } else {
      assert s[1..] == text[1..] + ([stop] + rest);
      UpToStop(text[1..], stop, rest);
      assert text == [text[0]] + text[1..];
    }
  }

  lemma SameTail<T>(x: T, a: seq<T>, b: seq<T>)
    ensures [x] + a == [x] + b <==> a == b
  {
    assert ([x] + a)[1..] == a && ([x] + b)[1..] == b;
  }
}
