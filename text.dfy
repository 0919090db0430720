/**
 * The two pieces of Rust's string library the core depends on: `str::lines`
 * (split at "\n", a "\r" before the "\n" dropped, no empty final line) and
 * `str::len`, the UTF-8 byte length.
 */
module Text {

  /** The index of the first c in s, or |s| when there is none. */
  function IndexOf(s: string, c: char): (i: nat)
    ensures i <= |s| && (i < |s| ==> s[i] == c)
    ensures forall j :: 0 <= j < i ==> s[j] != c
    decreases |s|
  {
    if s == [] then 0
    else if s[0] == c then 0
    else 1 + IndexOf(s[1..], c)
  }

  /** A line ended by "\r\n" loses its "\r". */
  function StripCr(line: string): string
  {
    if |line| > 0 && line[|line| - 1] == '\r' then line[..|line| - 1] else line
  }

  /** The number of bytes c takes in UTF-8. */
  function Utf8Width(c: char): nat
  {
    if c as int < 0x80 then 1
    else if c as int < 0x800 then 2
    else if c as int < 0x1_0000 then 3
    else 4
  }

  /** str::len: the UTF-8 byte length. */
  function Utf8Len(s: string): nat
  {
    if s == [] then 0 else Utf8Width(s[0]) + Utf8Len(s[1..])
  }

  lemma {:induction false} Utf8LenAppend(a: string, b: string)
    ensures Utf8Len(a + b) == Utf8Len(a) + Utf8Len(b)
  {
    if a == [] {
      assert a + b == b;
    } else {
      assert (a + b)[1..] == a[1..] + b;
      Utf8LenAppend(a[1..], b);
    }
  }

  /** A slice never takes more bytes than the whole, and every character takes one or more. */
  lemma Utf8LenSlice(s: string, i: nat, j: nat)
    requires i <= j <= |s|
    ensures j - i <= Utf8Len(s[i..j]) <= Utf8Len(s)
  {
    assert s == s[..i] + s[i..j] + s[j..];
    Utf8LenAppend(s[..i] + s[i..j], s[j..]);
    Utf8LenAppend(s[..i], s[i..j]);
    Utf8LenAtLeastLength(s[i..j]);
  }

  lemma {:induction false} Utf8LenAtLeastLength(s: string)
    ensures |s| <= Utf8Len(s)
  {
    if s != [] {
      Utf8LenAtLeastLength(s[1..]);
    }
  }

  /** str::lines. */
  function Lines(s: string): (r: seq<string>)
    ensures |r| <= |s|
    ensures forall k :: 0 <= k < |r| ==>
      '\n' !in r[k] && |r[k]| <= |s| && Utf8Len(r[k]) <= Utf8Len(s)
    decreases |s|
  {
    if s == [] then []
    else
      var i := IndexOf(s, '\n');
      if i == |s| then
        Utf8LenSlice(s, 0, |s|);
        [s]
      else
        var line := StripCr(s[..i]);
        Utf8LenSlice(s, 0, i);
        Utf8LenSlice(s[..i], 0, |line|);
        assert line == s[..i][0..|line|];
        assert s[0..i] == s[..i];
        assert '\n' !in line by {
          forall j | 0 <= j < |line| ensures line[j] != '\n' {
            assert line[j] == s[j];
          }
        }
        Utf8LenSlice(s, i + 1, |s|);
        assert s[i + 1..|s|] == s[i + 1..];
        [line] + Lines(s[i + 1..])
  }

  /** A line without "\n" and not ending in "\r", followed by "\n", is one line of the text. */
  lemma LinesCons(line: string, rest: string)
    requires '\n' !in line
    requires line == [] || line[|line| - 1] != '\r'
    ensures Lines(line + ['\n'] + rest) == [line] + Lines(rest)
  {
    var s := line + ['\n'] + rest;
    var i := IndexOf(s, '\n');
    assert s[|line|] == '\n';
    assert i == |line|;
    assert s[..i] == line;
    assert s[i + 1..] == rest;
  }
}
