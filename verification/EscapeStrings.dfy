// String values in configuration files: the writer sym_escape_string_value (symbol.c) and
// the reader in conf_set_sym_val (confdata.c), over null-terminated buffers.
module EscapeStrings {
  import opened Options

  const NUL: char := '\0'

  predicate Special(c: char) {
    c == '"' || c == '\\'
  }

  // ---- What is written and read ----

  function Body(s: string): string {
    if s == "" then "" else EscapedChar(s[0]) + Body(s[1..])
  }

  function EscapedChar(c: char): string {
    if Special(c) then ['\\', c] else [c]
  }

  function Escaped(s: string): string {
    ['"'] + Body(s) + ['"']
  }

  function Prepend(t: string, r: Option<string>): Option<string> {
    if r.None? then None else Some(t + r.value)
  }

  // The text behind the opening quote, up to the closing one; a backslash stands for
  // whatever follows it. None without a closing quote.
  function Unescaped(s: string): Option<string> {
    if s == "" then None
    else if s[0] == '"' then Some("")
    else if s[0] == '\\' then (if |s| == 1 then None else Prepend([s[1]], Unescaped(s[2..])))
    else Prepend([s[0]], Unescaped(s[1..]))
  }

  // Reading inverts writing, whatever follows the closing quote.
  lemma {:induction false} UnescapedEscaped(s: string, rest: string)
    ensures Unescaped(Body(s) + ['"'] + rest) == Some(s)
  {
    if s != "" {
      UnescapedEscaped(s[1..], rest);
      var b := Body(s) + ['"'] + rest;
      var tail := Body(s[1..]) + ['"'] + rest;
      if Special(s[0]) {
        assert b[2..] == tail && b[0] == '\\' && b[1] == s[0];
      } else {
        assert b[1..] == tail && b[0] == s[0];
      }
      assert [s[0]] + s[1..] == s;
    }
  }

  // The quotes and backslashes in a string.
  function Specials(s: string): (n: nat)
    ensures n <= |s|
  {
    if s == "" then 0 else (if s[0] == '"' || s[0] == '\\' then 1 else 0) + Specials(s[1..])
  }

  // Every character is written, moved back by one place for each quote or backslash up to it,
  // which have a backslash in front; nothing else is written.
  lemma {:induction false} BodyPlaces(s: string, i: nat)
    requires i < |s|
    ensures |Body(s)| == |s| + Specials(s)
    ensures var p := i + Specials(s[..i + 1]);
            && p < |Body(s)| && Body(s)[p] == s[i]
            && (s[i] == '"' || s[i] == '\\' ==> p > 0 && Body(s)[p - 1] == '\\')
  {
    var h := EscapedChar(s[0]);
    assert s[..i + 1][1..] == s[1..][..i] && s[..i + 1][0] == s[0];
    if i > 0 {
      BodyPlaces(s[1..], i - 1);
      var p := i - 1 + Specials(s[1..][..i]);
      assert Body(s)[|h| + p] == Body(s[1..])[p];
      assert s[i] == s[1..][i - 1];
    } else {
      assert s[1..][..0] == "";
      if |s| > 1 {
        BodyPlaces(s[1..], 0);
      }
    }
  }

  // What reads back as v is v with some of its characters escaped, among them all the
  // special ones: the reader accepts nothing else.
  ghost predicate EscapeOf(t: string, v: string) {
    if v == "" then t != "" && t[0] == '"'
    else
      || (t != "" && t[0] == v[0] && !Special(v[0]) && EscapeOf(t[1..], v[1..]))
      || (|t| >= 2 && t[0] == '\\' && t[1] == v[0] && EscapeOf(t[2..], v[1..]))
  }

  lemma {:induction false} ReadsExactly(t: string, v: string)
    ensures Unescaped(t) == Some(v) <==> EscapeOf(t, v)
    decreases |t|
  {
    if t != "" && t[0] != '"' {
      var k := if t[0] == '\\' then 2 else 1;
      if k <= |t| {
        var c := t[k - 1];
        var u := Unescaped(t[k..]);
        if v != "" {
          ReadsExactly(t[k..], v[1..]);
          assert [v[0]] + v[1..] == v;
          if u.Some? && [c] + u.value == v {
            assert v[0] == c && v[1..] == u.value;
          }
        }
      }
    }
  }

  // ---- Buffers ----

  // The buffer holds the string s from index at on.
  ghost predicate Holds(p: array<char>, at: nat, s: string)
    reads p
  {
    at + |s| < p.Length && p[at..at + |s|] == s && p[at + |s|] == NUL && NUL !in s
  }

  // strcspn(p, "\"\\"): how many characters of s from index i on are not special.
  method Span(s: string, i: nat) returns (l: nat)
    requires i <= |s|
    ensures i + l <= |s| && forall k :: i <= k < i + l ==> !Special(s[k])
    ensures i + l < |s| ==> Special(s[i + l])
  {
    l := 0;
    while i + l < |s| && !Special(s[i + l])
      invariant i + l <= |s| && forall k :: i <= k < i + l ==> !Special(s[k])
    {
      l := l + 1;
    }
  }

  lemma {:induction false} BodyAppend(a: string, b: string)
    ensures Body(a + b) == Body(a) + Body(b)
  {
    if a == "" {
      assert a + b == b;
    } else {
      var h := EscapedChar(a[0]);
      assert (a + b)[1..] == a[1..] + b && (a + b)[0] == a[0];
      assert Body(a + b) == h + Body(a[1..] + b);
      BodyAppend(a[1..], b);
      assert h + (Body(a[1..]) + Body(b)) == (h + Body(a[1..])) + Body(b);
    }
  }

  lemma {:induction false} BodyPlain(s: string)
    requires forall k :: 0 <= k < |s| ==> !Special(s[k])
    ensures Body(s) == s
  {
    if s != "" {
      BodyPlain(s[1..]);
    }
  }

  // What one turn of either loop of the writer covers: l plain characters, then a special one.
  lemma ChunkBody(s: string, i: nat, l: nat)
    requires i + l <= |s| && forall k :: i <= k < i + l ==> !Special(s[k])
    ensures Body(s[i..]) == s[i..i + l] + Body(s[i + l..])
    ensures i + l < |s| && Special(s[i + l]) ==> Body(s[i..]) == s[i..i + l] + ['\\', s[i + l]] + Body(s[i + l + 1..])
  {
    assert s[i..] == s[i..i + l] + s[i + l..];
    BodyAppend(s[i..i + l], s[i + l..]);
    BodyPlain(s[i..i + l]);
  }

  // strcat at a known end: t is copied behind the string that the buffer holds.
  method Append(res: array<char>, end: nat, t: string, ghost s: string)
    requires Holds(res, 0, s) && end == |s| && end + |t| < res.Length && NUL !in t
    modifies res
    ensures Holds(res, 0, s + t)
  {
    var i := 0;
    while i < |t|
      invariant 0 <= i <= |t| && res[..end] == s && res[end..end + i] == t[..i]
    {
      res[end + i] := t[i];
      i := i + 1;
    }
    res[end + |t|] := NUL;
    assert res[..end + |t|] == res[..end] + res[end..end + |t|] == s + t;
    assert forall c :: c in s + t ==> c in s || c in t;
  }

  // The first loop of the writer: the exact size of the result and its terminator.
  method ResultSize(s: string) returns (reslen: nat)
    ensures reslen == |Escaped(s)| + 1
  {
    reslen := |s| + 2 + 1;
    var p := 0;
    while true
      invariant 0 <= p <= |s| && reslen + |Body(s[p..])| == |Body(s)| + 2 + 1 + |s| - p
      decreases |s| - p
    {
      var l := Span(s, p);
      ChunkBody(s, p, l);
      p := p + l;
      if p == |s| {
        break;
      }
      reslen := reslen + 1;
      p := p + 1;
    }
  }

  // What remains to be written after `written` is the body of s from position p on.
  ghost predicate Remains(s: string, p: nat, written: string) {
    p <= |s| && ['"'] + Body(s) == written + Body(s[p..])
  }

  lemma RunRemains(s: string, p: nat, l: nat, written: string)
    requires Remains(s, p, written) && p + l <= |s| && forall k :: p <= k < p + l ==> !Special(s[k])
    ensures Remains(s, p + l, written + s[p..p + l])
  {
    ChunkBody(s, p, l);
    assert written + (s[p..p + l] + Body(s[p + l..])) == (written + s[p..p + l]) + Body(s[p + l..]);
  }

  lemma SpecialRemains(s: string, p: nat, written: string)
    requires Remains(s, p, written) && p < |s| && Special(s[p])
    ensures Remains(s, p + 1, written + ['\\', s[p]])
  {
    var c := EscapedChar(s[p]);
    assert s[p..][1..] == s[p + 1..] && s[p..][0] == s[p];
    assert Body(s[p..]) == c + Body(s[p + 1..]);
    assert written + (c + Body(s[p + 1..])) == (written + c) + Body(s[p + 1..]);
  }

  // The second loop of the writer: runs of plain characters, and special ones escaped.
  method WriteBody(res: array<char>, s: string)
    requires NUL !in s && res.Length == |Body(s)| + 3 && Holds(res, 0, ['"'])
    modifies res
    ensures Holds(res, 0, ['"'] + Body(s))
  {
    ghost var written: string := ['"'];
    var end := 1;
    var p := 0;
    while true
      invariant end == |written| && Holds(res, 0, written) && Remains(s, p, written)
      decreases |s| - p
    {
      var l := Span(s, p);
      RunRemains(s, p, l, written);
      var plain := s[p..p + l];
      Append(res, end, plain, written);
      end, written, p := end + l, written + plain, p + l;
      if p == |s| {
        break;
      }
      SpecialRemains(s, p, written);
      AppendSpecial(res, end, s[p], written);
      end, written, p := end + 2, written + ['\\', s[p]], p + 1;
    }
    assert written + Body(s[p..]) == written;
  }

  // sym_escape_string_value: the buffer is filled to the last byte.
  method EscapeStringValue(s: string) returns (res: array<char>)
    requires NUL !in s
    ensures fresh(res) && res.Length == |Escaped(s)| + 1 && Holds(res, 0, Escaped(s))
  {
    var reslen := ResultSize(s);
    res := new char[reslen];
    res[0] := NUL;
    Append(res, 0, ['"'], "");
    assert "" + ['"'] == ['"'];
    WriteBody(res, s);
    Append(res, reslen - 2, ['"'], ['"'] + Body(s));
  }

  method AppendSpecial(res: array<char>, end: nat, c: char, ghost written: string)
    requires Holds(res, 0, written) && end == |written| && Special(c) && end + 2 < res.Length
    modifies res
    ensures Holds(res, 0, written + ['\\', c])
  {
    Append(res, end, ['\\'], written);
    Append(res, end + 1, [c], written + ['\\']);
    assert written + ['\\'] + [c] == written + ['\\', c];
  }

  // strpbrk(p, "\"\\"): the next special character or the terminator.
  method FindSpecial(p: array<char>, at: nat, ghost s: string) returns (k: nat)
    requires Holds(p, at, s)
    ensures at <= k <= at + |s|
    ensures forall i :: 0 <= i < k - at ==> !Special(s[i])
    ensures k < at + |s| ==> p[k] == s[k - at] && Special(p[k])
  {
    k := at;
    while p[k] != NUL && !Special(p[k])
      invariant at <= k <= at + |s|
      invariant forall i :: 0 <= i < k - at ==> !Special(s[i])
      decreases at + |s| - k
    {
      assert p[at..at + |s|][k - at] == p[k];
      k := k + 1;
    }
    assert k < at + |s| ==> p[k] == s[k - at];
  }

  method Strlen(p: array<char>, at: nat, ghost s: string) returns (n: nat)
    requires Holds(p, at, s)
    ensures n == |s|
  {
    forall j | at <= j < at + |s|
      ensures p[j] != NUL
    {
      assert p[j] == p[at..at + |s|][j - at];
    }
    n := 0;
    while p[at + n] != NUL
      invariant 0 <= n <= |s|
      decreases |s| - n
    {
      n := n + 1;
    }
  }

  // memmove(p + at, p + at + 1, strlen(p + at)): one character goes, the rest moves up.
  method DropOne(p: array<char>, at: nat, ghost s: string)
    requires Holds(p, at, s) && s != ""
    modifies p
    ensures Holds(p, at, s[1..]) && p[at + |s|] == NUL
    ensures p[..at] == old(p[..at])
  {
    var n := Strlen(p, at, s);
    var i := 0;
    ghost var before := p[..];
    while i < n
      invariant 0 <= i <= n
      invariant forall k :: at <= k < at + i ==> p[k] == before[k + 1]
      invariant forall k :: (0 <= k < at || at + i <= k < p.Length) ==> p[k] == before[k]
    {
      p[at + i] := p[at + i + 1];
      i := i + 1;
    }
    assert p[at..at + |s| - 1] == before[at + 1..at + |s|];
    assert before[at + 1..at + |s|] == before[at..at + |s|][1..] == s[1..];
  }

  datatype ReadResult = NotSet | Invalid | Value(v: string)

  // The string case of conf_set_sym_val: without an opening quote nothing is set; without
  // a closing one the value is invalid. The buffer is unescaped in place.
  method ReadStringValue(p: array<char>, ghost s: string) returns (r: ReadResult)
    requires Holds(p, 0, s)
    modifies p
    ensures (s == "" || s[0] != '"') ==> r == NotSet && p[..] == old(p[..])
    ensures s != "" && s[0] == '"' ==>
              r == match Unescaped(s[1..]) case Some(v) => Value(v) case None => Invalid
  {
    assert s != "" ==> p[0] == p[0..|s|][0];
    if p[0] != '"' {
      return NotSet;
    }
    ghost var rest := s[1..];
    var at := 1;
    AfterQuote(p, s);
    while true
      invariant 1 <= at && Holds(p, at, rest)
      invariant Unescaped(s[1..]) == Prepend(p[1..at], Unescaped(rest))
      decreases |rest|
    {
      var k := NextSpecial(p, at, rest, s[1..]);
      rest := rest[k - at..];
      if p[k] == NUL {
        return Invalid;
      }
      if p[k] == '"' {
        p[k] := NUL;
        return Value(p[1..k]);
      }
      TakeEscaped(p, k, rest, s[1..]);
      at := k + 1;
      rest := if |rest| > 1 then rest[2..] else "";
    }
  }

  lemma AfterQuote(p: array<char>, s: string)
    requires Holds(p, 0, s) && s != ""
    ensures Holds(p, 1, s[1..]) && Unescaped(s[1..]) == Prepend(p[1..1], Unescaped(s[1..]))
  {
    assert p[1..1 + |s[1..]|] == p[0..|s|][1..];
    PrependTwice("", "", Unescaped(s[1..]));
    assert p[1..1] == "";
  }

  // Up to the next special character the text stands for itself.
  method NextSpecial(p: array<char>, at: nat, ghost rest: string, ghost whole: string) returns (k: nat)
    requires 1 <= at && Holds(p, at, rest) && Unescaped(whole) == Prepend(p[1..at], Unescaped(rest))
    ensures at <= k <= at + |rest| && Holds(p, k, rest[k - at..]) && (k < at + |rest| ==> p[k] == rest[k - at] && Special(p[k]))
    ensures Unescaped(whole) == Prepend(p[1..k], Unescaped(rest[k - at..]))
  {
    k := FindSpecial(p, at, rest);
    ghost var m := k - at;
    PlainPrefix(rest, m);
    Slices(p, at, m, rest);
    PrependTwice(p[1..at], rest[..m], Unescaped(rest[m..]));
  }

  // The text from `at` on, in two parts.
  lemma Slices(p: array<char>, at: nat, m: nat, rest: string)
    requires 1 <= at && Holds(p, at, rest) && m <= |rest|
    ensures p[at..at + m] == rest[..m] && Holds(p, at + m, rest[m..])
    ensures p[1..at + m] == p[1..at] + rest[..m]
  {
    assert p[at..at + m] == p[at..at + |rest|][..m];
    assert p[at + m..at + |rest|] == p[at..at + |rest|][m..];
  }

  // The backslash goes, and what followed it is skipped, whatever it is.
  method TakeEscaped(p: array<char>, k: nat, ghost rest: string, ghost whole: string)
    requires 1 <= k && Holds(p, k, rest) && rest != "" && rest[0] == '\\' && Unescaped(whole) == Prepend(p[1..k], Unescaped(rest))
    modifies p
    ensures k + 1 < p.Length && Holds(p, k + 1, if |rest| > 1 then rest[2..] else "")
    ensures Unescaped(whole) == Prepend(p[1..k + 1], Unescaped(if |rest| > 1 then rest[2..] else ""))
  {
    DropOne(p, k, rest);
    assert p[1..k] == p[..k][1..] == old(p[..k])[1..] == old(p[1..k]);
    if |rest| > 1 {
      assert p[k..k + |rest| - 1][0] == rest[1];
      assert p[1..k + 1] == p[1..k] + [rest[1]];
      PrependTwice(p[1..k], [rest[1]], Unescaped(rest[2..]));
      assert p[k + 1..k + 1 + |rest[2..]|] == p[k..k + |rest| - 1][1..];
    } else {
      assert p[k + 1..k + 1] == "";
    }
  }

  lemma PrependTwice(a: string, b: string, r: Option<string>)
    ensures Prepend("", r) == r && Prepend(a, Prepend(b, r)) == Prepend(a + b, r)
  {
    if r.Some? {
      assert "" + r.value == r.value;
      assert a + (b + r.value) == (a + b) + r.value;
    }
  }

  lemma {:induction false} PlainPrefix(s: string, k: nat)
    requires k <= |s| && forall i :: 0 <= i < k ==> !Special(s[i])
    ensures Unescaped(s) == Prepend(s[..k], Unescaped(s[k..]))
  {
    PrependTwice("", "", Unescaped(s));
    if k > 0 {
      PlainPrefix(s[1..], k - 1);
      PrependTwice([s[0]], s[1..][..k - 1], Unescaped(s[k..]));
      assert s[1..][k - 1..] == s[k..] && [s[0]] + s[1..][..k - 1] == s[..k];
    }
  }

  // Reading back a written value gives the original, for every string without a terminator.
  method WriteThenRead(s: string) returns (r: ReadResult)
    requires NUL !in s
    ensures r == Value(s)
  {
    var buffer := EscapeStringValue(s);
    UnescapedEscaped(s, "");
    assert Escaped(s)[1..] == Body(s) + ['"'] + "";
    r := ReadStringValue(buffer, Escaped(s));
  }
}
