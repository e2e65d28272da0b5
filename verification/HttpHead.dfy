/** The head of an HTTP/1 request as bytes: where it ends, its path and its Host. */
module HttpHead {
  import opened Options
  import opened Wire

  const CR: byte := 0x0d
  const LF: byte := 0x0a
  const SPACE: byte := 0x20
  const COLON: byte := 0x3a
  const QUESTION: byte := 0x3f
  const SLASH: byte := 0x2f

  const CRLF: Bytes := [CR, LF]
  const BLANK: Bytes := [CR, LF, CR, LF]

  /** bytes.Index: the first place where `sep` occurs. */
  function Index(b: Bytes, sep: Bytes): Option<nat> {
    if |b| < |sep| then None
    else if b[..|sep|] == sep then Some(0)
    else if b == [] then None
    else
      var i := Index(b[1..], sep);
      if i.None? then None else Some(i.value + 1)
  }

  lemma {:induction false} IndexFound(b: Bytes, sep: Bytes)
    ensures Index(b, sep).Some? ==> Index(b, sep).value + |sep| <= |b|
  {
    if |b| >= |sep| && b != [] && b[..|sep|] != sep {
      IndexFound(b[1..], sep);
    }
  }

  /** Reading more does not move the first occurrence. */
  lemma {:induction false} IndexStable(b: Bytes, more: Bytes, sep: Bytes)
    ensures Index(b, sep).Some? ==> Index(b + more, sep) == Index(b, sep)
    ensures Index(b + more, sep).Some? && Index(b + more, sep).value + |sep| <= |b| ==> Index(b, sep) == Index(b + more, sep)
  {
    if |b| >= |sep| {
      assert (b + more)[..|sep|] == b[..|sep|];
      if b[..|sep|] != sep && b != [] {
        assert (b + more)[1..] == b[1..] + more;
        IndexStable(b[1..], more, sep);
      }
    }
  }

  predicate At(b: Bytes, sep: Bytes, i: nat) {
    i + |sep| <= |b| && b[i..i + |sep|] == sep
  }

  /** `sep` does not begin anywhere in the first `n` bytes. */
  ghost predicate NotIn(b: Bytes, sep: Bytes, n: nat) {
    forall i :: 0 <= i < n ==> !At(b, sep, i)
  }

  lemma AtLater(b: Bytes, sep: Bytes, n: nat, i: nat)
    requires n <= |b|
    ensures At(b[n..], sep, i) == At(b, sep, n + i)
  {
    if n + i + |sep| <= |b| {
      assert b[n..][i..i + |sep|] == b[n + i..n + i + |sep|];
    }
  }

  lemma {:induction false} IndexAfter(b: Bytes, sep: Bytes, n: nat)
    requires n <= |b| && NotIn(b, sep, n)
    ensures Index(b, sep) == var i := Index(b[n..], sep); if i.None? then None else Some(n + i.value)
    decreases n
  {
    if n == 0 {
      assert b[0..] == b;
    } else {
      assert !At(b, sep, 0);
      assert |b| >= |sep| ==> b[..|sep|] == b[0..0 + |sep|];
      var t := b[1..];
      assert t[n - 1..] == b[n..];
      NotInTail(b, sep, n);
      hide NotIn, At;
      IndexAfter(t, sep, n - 1);
    }
  }

  lemma NotInTail(b: Bytes, sep: Bytes, n: nat)
    requires 0 < n <= |b| && NotIn(b, sep, n)
    ensures NotIn(b[1..], sep, n - 1)
  {
    forall i | 0 <= i < n - 1 ensures !At(b[1..], sep, i) {
      AtLater(b, sep, 1, i);
      assert !At(b, sep, i + 1);
    }
  }

  lemma {:induction false} IndexNone(b: Bytes, sep: Bytes, i: nat)
    requires Index(b, sep).None?
    ensures !At(b, sep, i)
  {
    if |b| >= |sep| {
      if i == 0 {
        assert b[0..0 + |sep|] == b[..|sep|];
      } else if b != [] {
        IndexNone(b[1..], sep, i - 1);
        AtLater(b, sep, 1, i - 1);
      }
    }
  }

  /** bytes.Split at CRLF. */
  function Lines(b: Bytes): (ls: seq<Bytes>)
    ensures ls != []
    decreases |b|
  {
    var i := Index(b, CRLF);
    if i.None? then [b] else (IndexFound(b, CRLF); [b[..i.value]] + Lines(b[i.value + 2..]))
  }

  /** The second field of the request line. */
  function Target(line: Bytes): Option<Bytes> {
    var i := Index(line, [SPACE]);
    if i.None? then None
    else
      IndexFound(line, [SPACE]);
      var rest := line[i.value + 1..];
      var j := Index(rest, [SPACE]);
      if j.None? then Some(rest) else (IndexFound(rest, [SPACE]); Some(rest[..j.value]))
  }

  function PathOnly(p: Bytes): Bytes {
    var i := Index(p, [QUESTION]);
    var q := if i.Some? then (IndexFound(p, [QUESTION]); p[..i.value]) else p;
    if q == [] then [SLASH] else q
  }

  function Lower(c: byte): byte {
    if 0x41 <= c <= 0x5a then c + 0x20 else c
  }

  /** strings.EqualFold with "Host": the letter s has a third form, U+017F. */
  predicate IsHost(name: Bytes) {
    && |name| >= 4 && Lower(name[0]) == 0x68 && Lower(name[1]) == 0x6f
    && (if |name| == 4 then Lower(name[2]) == 0x73 else |name| == 5 && name[2..4] == [0xc5, 0xbf])
    && Lower(name[|name| - 1]) == 0x74
  }

  /** One character of white space in the sense of Unicode, in UTF-8. */
  predicate IsSpace(c: Bytes) {
    match |c|
    case 1 => c[0] == SPACE || 0x09 <= c[0] <= 0x0d
    case 2 => c[0] == 0xc2 && c[1] in {0x85, 0xa0}
    case 3 =>
      || c in {[0xe1, 0x9a, 0x80], [0xe2, 0x81, 0x9f], [0xe3, 0x80, 0x80]}
      || (c[0] == 0xe2 && c[1] == 0x80 && (0x80 <= c[2] <= 0x8a || c[2] in {0xa8, 0xa9, 0xaf}))
    case _ => false
  }

  /** How many bytes of white space `b` begins with. */
  function SpaceBefore(b: Bytes): (n: nat)
    ensures n <= |b| && (n > 0 ==> IsSpace(b[..n]))
  {
    if |b| >= 1 && IsSpace(b[..1]) then 1
    else if |b| >= 2 && IsSpace(b[..2]) then 2
    else if |b| >= 3 && IsSpace(b[..3]) then 3
    else 0
  }

  /** How many bytes of white space `b` ends with. */
  function SpaceBehind(b: Bytes): (n: nat)
    ensures n <= |b| && (n > 0 ==> IsSpace(b[|b| - n..]))
  {
    if |b| >= 1 && IsSpace(b[|b| - 1..]) then 1
    else if |b| >= 2 && IsSpace(b[|b| - 2..]) then 2
    else if |b| >= 3 && IsSpace(b[|b| - 3..]) then 3
    else 0
  }

  function TrimSpace(b: Bytes): Bytes {
    var n, m := SpaceBefore(b), SpaceBehind(b);
    if n > 0 then TrimSpace(b[n..])
    else if m > 0 then TrimSpace(b[..|b| - m])
    else b
  }

  /** The value of a header line that is a Host header. */
  function HostValue(line: Bytes): Option<Bytes> {
    var i := Index(line, [COLON]);
    if i.None? then None
    else
      IndexFound(line, [COLON]);
      if IsHost(line[..i.value]) then Some(TrimSpace(line[i.value + 1..])) else None
  }

  /** The first Host header decides; without one the host is empty. */
  function HostIn(lines: seq<Bytes>): Bytes {
    if lines == [] then []
    else if HostValue(lines[0]).Some? then HostValue(lines[0]).value
    else HostIn(lines[1..])
  }

  /** Host and path of a request head; None for a bad request line. */
  function ParseHead(hdr: Bytes): Option<(Bytes, Bytes)> {
    var lines := Lines(hdr);
    var target := Target(lines[0]);
    if target.None? then None else Some((HostIn(lines[1..]), PathOnly(target.value)))
  }

  method ParseHTTP1Head(hdr: Bytes) returns (ok: bool, host: Bytes, path: Bytes)
    ensures ok == ParseHead(hdr).Some?
    ensures ok ==> ParseHead(hdr) == Some((host, path))
  {
    var lines := Lines(hdr);
    host := [];
    var target := Target(lines[0]);
    if target.None? {
      return false, host, [];
    }
    path := PathOnly(target.value);
    assert lines[1..] == lines[1..|lines|];
    for i := 1 to |lines|
      invariant HostIn(lines[1..]) == HostIn(lines[i..])
    {
      hide HostValue, Target, PathOnly;
      assert lines[i..][1..] == lines[i + 1..];
      var value := HostValue(lines[i]);
      if value.Some? {
        return true, value.value, path;
      }
    }
    return true, [], path;
  }

  /** Lines with CRLF between them. */
  function Join(lines: seq<Bytes>): Bytes {
    if lines == [] then [] else if |lines| == 1 then lines[0] else lines[0] + [0x0d, 0x0a] + Join(lines[1..])
  }

  predicate Line(b: Bytes) {
    b != [] && Index(b, CRLF).None?
  }

  /** A line cannot run into the CRLF behind it. */
  lemma LineEnds(line: Bytes, rest: Bytes)
    requires Index(line, CRLF).None?
    ensures NotIn(line + CRLF + rest, CRLF, |line|)
    ensures Index(line + CRLF + rest, CRLF) == Some(|line|)
  {
    var b := line + CRLF + rest;
    forall i | 0 <= i < |line| ensures !At(b, CRLF, i) {
      IndexNone(line, CRLF, i);
      if i + 2 <= |line| {
        assert line[i..i + 2] == b[i..i + 2];
      } else {
        assert b[i..i + 2][1] == CR;
      }
    }
    hide NotIn;
    IndexAfter(b, CRLF, |line|);
    assert b[|line|..] == CRLF + rest;
    assert (CRLF + rest)[..2] == CRLF;
  }

  lemma {:induction false} LinesOfJoin(lines: seq<Bytes>)
    requires lines != [] && forall l :: l in lines ==> Line(l)
    ensures Lines(Join(lines)) == lines
    decreases |lines|
  {
    var l := lines[0];
    assert l in lines;
    if |lines| > 1 {
      var tail := lines[1..];
      LineEnds(l, Join(tail));
      LinesOfJoin(tail);
      var b := Join(lines);
      assert b == l + CRLF + Join(tail);
      assert b[..|l|] == l && b[|l| + 2..] == Join(tail);
      hide Index;
    }
  }

  /** The blank line that ends a head made of non-empty lines is the first one. */
  lemma {:induction false} BlankAfterJoin(lines: seq<Bytes>, body: Bytes)
    requires lines != [] && forall l :: l in lines ==> Line(l)
    ensures Index(Join(lines) + BLANK + body, BLANK) == Some(|Join(lines)|)
    decreases |lines|
  {
    var l := lines[0];
    assert l in lines;
    if |lines| == 1 {
      BlankAfterLine(l, body);
    } else {
      var tail := lines[1..];
      assert tail[0] in lines;
      assert Join(lines) == l + CRLF + Join(tail);
      hide Index, Join, Line;
      BlankAfterJoin(tail, body);
      var rest := Join(tail) + BLANK + body;
      var b := Join(lines) + BLANK + body;
      assert b == l + CRLF + rest;
      BlankLater(l, tail[0], tail, body);
      IndexAfter(b, BLANK, |l| + 2);
      assert b[|l| + 2..] == rest;
    }
  }

  lemma BlankAfterLine(l: Bytes, body: Bytes)
    requires Line(l)
    ensures Index(l + BLANK + body, BLANK) == Some(|l|)
  {
    BlankFirst(l, CRLF + body);
    assert l + CRLF + (CRLF + body) == l + BLANK + body;
    assert (l + BLANK + body)[|l|..] == BLANK + body;
    assert (BLANK + body)[..4] == BLANK;
    hide NotIn, Line;
    IndexAfter(l + BLANK + body, BLANK, |l|);
  }

  /** A blank line begins and ends with a CRLF. */
  lemma BlankIsCRLF(b: Bytes, i: nat)
    requires i + 4 <= |b|
    requires !At(b, CRLF, i) || b[i] != CR || (b[i + 2] == CR ==> b[i + 3] != LF)
    ensures !At(b, BLANK, i)
  {
    var s := b[i..i + 4];
    assert s[0] == b[i] && s[1] == b[i + 1] && s[2] == b[i + 2] && s[3] == b[i + 3];
    assert b[i..i + 2] == s[..2];
  }

  lemma BlankFirst(l: Bytes, rest: Bytes)
    requires Line(l)
    ensures NotIn(l + CRLF + rest, BLANK, |l|)
  {
    LineEnds(l, rest);
    var b := l + CRLF + rest;
    hide Index;
    forall i | 0 <= i < |l| ensures !At(b, BLANK, i) {
      assert !At(b, CRLF, i);
      if i + 4 <= |b| {
        BlankIsCRLF(b, i);
      }
    }
  }

  /** What follows a line is not the LF of a CRLF, nor a CRLF. */
  lemma NotBlank(next: Bytes, tail: seq<Bytes>, body: Bytes)
    requires tail != [] && tail[0] == next && Line(next)
    ensures var rest := Join(tail) + BLANK + body; |rest| >= 2 && !(rest[0] == CR && rest[1] == LF)
  {
    var rest := Join(tail) + BLANK + body;
    assert rest[0] == next[0];
    assert rest[1] == if |next| > 1 then next[1] else CR;
    IndexNone(next, CRLF, 0);
    if |next| > 1 {
      assert next[0..2] == [next[0], next[1]];
    }
  }

  lemma BlankLater(l: Bytes, next: Bytes, tail: seq<Bytes>, body: Bytes)
    requires Line(l) && tail != [] && tail[0] == next && Line(next)
    ensures NotIn(l + CRLF + (Join(tail) + BLANK + body), BLANK, |l| + 2)
  {
    NotBlank(next, tail, body);
    hide Join, Line, Index;
    var rest := Join(tail) + BLANK + body;
    var b := l + CRLF + rest;
    BlankFirst(l, rest);
    forall i | 0 <= i < |l| + 2 ensures !At(b, BLANK, i) {
      if |l| <= i && i + 4 <= |b| {
        assert b[|l|] == CR && b[|l| + 1] == LF && b[|l| + 2] == rest[0] && b[|l| + 3] == rest[1];
        BlankIsCRLF(b, i);
      }
    }
  }

  /** The first `c` in a text is where the part without it ends. */
  lemma IndexOfMark(x: Bytes, c: byte, y: Bytes)
    requires Index(x, [c]).None?
    ensures Index(x + [c] + y, [c]) == Some(|x|)
  {
    var b := x + [c] + y;
    forall i | 0 <= i < |x| ensures !At(b, [c], i) {
      IndexNone(x, [c], i);
      assert b[i..i + 1] == x[i..i + 1];
    }
    IndexAfter(b, [c], |x|);
    assert b[|x|..] == [c] + y;
    assert ([c] + y)[..1] == [c];
  }

  lemma HostFound(name: Bytes, value: Bytes)
    requires IsHost(name) && Index(name, [COLON]).None?
    ensures HostValue(name + [COLON] + value) == Some(TrimSpace(value))
  {
    var line := name + [COLON] + value;
    IndexOfMark(name, COLON, value);
    assert line[..|name|] == name && line[|name| + 1..] == value;
    hide Index, IsHost, TrimSpace;
  }

  lemma {:induction false} HostAfter(before: seq<Bytes>, line: Bytes, after: seq<Bytes>)
    requires (forall l :: l in before ==> HostValue(l).None?) && HostValue(line).Some?
    ensures HostIn(before + ([line] + after)) == HostValue(line).value
  {
    hide HostValue;
    if before == [] {
      assert before + ([line] + after) == [line] + after;
    } else {
      assert (before + ([line] + after))[1..] == before[1..] + ([line] + after);
      HostAfter(before[1..], line, after);
    }
  }

  lemma PathBeforeQuery(path: Bytes, query: Bytes)
    requires Index(path, [QUESTION]).None?
    ensures PathOnly(path + [QUESTION] + query) == PathOnly(path) == if path == [] then [SLASH] else path
  {
    IndexOfMark(path, QUESTION, query);
    assert (path + [QUESTION] + query)[..|path|] == path;
    hide Index;
  }

  /** A request line, some headers, a header of interest, and more headers. */
  function RequestLines(first: Bytes, before: seq<Bytes>, name: Bytes, value: Bytes, after: seq<Bytes>): seq<Bytes> {
    [first] + (before + ([name + [0x3a] + value] + after))
  }

  /** `t` stands behind the first space of `line`, and ends where `line` does or with the second. */
  ghost predicate SecondField(line: Bytes, t: Bytes) {
    exists i :: 0 <= i < |line| && FieldAt(line, t, i)
  }

  predicate FieldAt(line: Bytes, t: Bytes, i: nat)
    requires i < |line|
  {
    && line[i] == 0x20 && 0x20 !in line[..i] && 0x20 !in t && t <= line[i + 1..]
    && (i + 1 + |t| == |line| || line[i + 1 + |t|] == 0x20)
  }

  lemma TargetIff(line: Bytes, t: Bytes)
    ensures Target(line) == Some(t) <==> SecondField(line, t)
  {
    if Target(line).Some? {
      TargetAt(line);
    }
    if i :| 0 <= i < |line| && FieldAt(line, t, i) {
      TargetFound(line, t, i);
    }
    hide Target, FieldAt;
  }

  lemma TargetAt(line: Bytes)
    requires Target(line).Some?
    ensures Index(line, [SPACE]).Some? && Index(line, [SPACE]).value < |line|
    ensures FieldAt(line, Target(line).value, Index(line, [SPACE]).value)
  {
    MarkFirst(line, SPACE);
    var rest := line[Index(line, [SPACE]).value + 1..];
    MarkNone(rest, SPACE);
    if Index(rest, [SPACE]).Some? {
      MarkFirst(rest, SPACE);
    }
    hide Index;
  }

  lemma TargetFound(line: Bytes, t: Bytes, i: nat)
    requires i < |line| && FieldAt(line, t, i)
    ensures Target(line) == Some(t)
  {
    var rest := line[i + 1..];
    MarkNone(line[..i], SPACE);
    IndexOfMark(line[..i], SPACE, rest);
    assert line == line[..i] + [SPACE] + rest;
    MarkNone(t, SPACE);
    if i + 1 + |t| < |line| {
      IndexOfMark(t, SPACE, rest[|t| + 1..]);
      assert rest == t + [SPACE] + rest[|t| + 1..];
    } else {
      assert rest == t;
    }
    assert rest[..|t|] == t;
    hide Index;
  }

  /** Where the first `c` is, and that there is none before it. */
  lemma MarkFirst(b: Bytes, c: byte)
    requires Index(b, [c]).Some?
    ensures Index(b, [c]).value < |b| && b[Index(b, [c]).value] == c && c !in b[..Index(b, [c]).value]
  {
    IndexAt(b, [c]);
    var i := Index(b, [c]).value;
    hide Index;
    assert b[i..i + 1] == [b[i]];
    forall j | 0 <= j < i ensures b[j] != c {
      assert !At(b, [c], j);
      assert b[j..j + 1] == [b[j]];
    }
  }

  /** The letter, in either case. */
  predicate Cased(b: byte, c: char) {
    b == c as int || b == c as int - 32
  }

  /** The name Host in any case; the letter s may also be the long one, U+017F. */
  predicate SpellsHost(name: Bytes) {
    || (|name| == 4 && Cased(name[0], 'h') && Cased(name[1], 'o') && Cased(name[2], 's') && Cased(name[3], 't'))
    || (|name| == 5 && Cased(name[0], 'h') && Cased(name[1], 'o') && name[2] == 0xc5 && name[3] == 0xbf && Cased(name[4], 't'))
  }

  lemma IsHostIff(name: Bytes)
    ensures IsHost(name) <==> SpellsHost(name)
  {}

  /** What stands before the first colon, if there is one, is not that name. */
  ghost predicate OtherHeader(line: Bytes) {
    forall i :: 0 <= i < |line| && line[i] == 0x3a && 0x3a !in line[..i] ==> !SpellsHost(line[..i])
  }

  /** Not empty, and without a line end in it. */
  ghost predicate SingleLine(line: Bytes) {
    line != [] && forall i :: 0 <= i < |line| - 1 ==> !(line[i] == 0x0d && line[i + 1] == 0x0a)
  }

  lemma MarkNone(x: Bytes, c: byte)
    ensures Index(x, [c]).None? <==> c !in x
  {
    if Index(x, [c]).None? {
      forall i | 0 <= i < |x| ensures x[i] != c {
        IndexNone(x, [c], i);
        assert x[i..i + 1] == [x[i]];
      }
    } else {
      IndexAt(x, [c]);
      var i := Index(x, [c]).value;
      assert x[i..i + 1] == [x[i]];
    }
  }

  /** What is found is there, and nothing like it before. */
  lemma {:induction false} IndexAt(b: Bytes, sep: Bytes)
    requires Index(b, sep).Some?
    ensures At(b, sep, Index(b, sep).value) && NotIn(b, sep, Index(b, sep).value)
  {
    if b[..|sep|] == sep {
      assert b[0..0 + |sep|] == b[..|sep|];
    } else {
      IndexAt(b[1..], sep);
      var n := Index(b[1..], sep).value;
      AtLater(b, sep, 1, n);
      forall i | 0 <= i < n + 1 ensures !At(b, sep, i) {
        if i == 0 {
          assert |b| >= |sep| ==> b[0..0 + |sep|] == b[..|sep|];
        } else {
          AtLater(b, sep, 1, i - 1);
          assert !At(b[1..], sep, i - 1);
        }
      }
    }
  }

  lemma LineIff(l: Bytes)
    ensures Line(l) <==> SingleLine(l)
  {
    if Index(l, CRLF).None? {
      forall i | 0 <= i < |l| - 1 ensures !(l[i] == 0x0d && l[i + 1] == 0x0a) {
        IndexNone(l, CRLF, i);
        assert l[i..i + 2] == [l[i], l[i + 1]];
      }
    } else {
      IndexAt(l, CRLF);
      var i := Index(l, CRLF).value;
      assert l[i..i + 2] == [l[i], l[i + 1]];
    }
    hide Index;
  }

  lemma HeaderIff(l: Bytes)
    ensures HostValue(l).None? <==> OtherHeader(l)
  {
    MarkNone(l, COLON);
    if Index(l, [COLON]).Some? {
      var i := Index(l, [COLON]).value;
      MarkFirst(l, COLON);
      IsHostIff(l[..i]);
      forall j | i < j <= |l| ensures 0x3a in l[..j] {
        assert l[..j][i] == 0x3a;
      }
    }
    hide Index, IsHost, SpellsHost;
  }

  /** The path of a request target: up to the first question mark, and a slash if that leaves nothing. */
  ghost predicate PathOf(target: Bytes, path: Bytes) {
    exists n :: 0 <= n <= |target| && 0x3f !in target[..n] && (n < |target| ==> target[n] == 0x3f)
      && path == if n == 0 then [0x2f] else target[..n]
  }

  lemma PathIs(target: Bytes, path: Bytes)
    requires PathOf(target, path)
    ensures PathOnly(target) == path
  {
    var n :| 0 <= n <= |target| && 0x3f !in target[..n] && (n < |target| ==> target[n] == 0x3f)
      && path == if n == 0 then [0x2f] else target[..n];
    MarkNone(target[..n], QUESTION);
    if n < |target| {
      IndexOfMark(target[..n], QUESTION, target[n + 1..]);
      assert target == target[..n] + [QUESTION] + target[n + 1..];
    } else {
      assert target[..n] == target;
    }
    hide Index;
  }

  predicate Space(c: byte) {
    c == 0x20 || 0x09 <= c <= 0x0d
  }

  predicate Spaces(pad: Bytes) {
    forall i :: 0 <= i < |pad| ==> Space(pad[i])
  }

  /** A text that begins and ends with a visible character, or is empty. */
  predicate Visible(v: Bytes) {
    v != [] ==> 0x21 <= v[0] <= 0x7e && 0x21 <= v[|v| - 1] <= 0x7e
  }

  /** Whatever white space surrounds a text is trimmed, and nothing else. */
  lemma {:induction false} Trims(pad: Bytes, v: Bytes, pad': Bytes)
    requires Spaces(pad) && Visible(v) && Spaces(pad')
    ensures TrimSpace(pad + v + pad') == v
    decreases |pad|
  {
    if pad == [] {
      hide *;
      assert pad + v + pad' == v + pad';
      TrimsBehind(v, pad');
    } else {
      FewerSpaces(pad);
      hide *;
      var c, tail := pad[0], pad[1..];
      assert pad == [c] + tail;
      SpaceAhead(c, tail + v + pad');
      Joined([c], tail, v, pad');
      Trims(tail, v, pad');
    }
  }

  lemma Joined(a: Bytes, b: Bytes, c: Bytes, d: Bytes)
    ensures a + b + c + d == a + (b + c + d)
  {}

  lemma FewerSpaces(pad: Bytes)
    requires Spaces(pad) && pad != []
    ensures Spaces(pad[1..]) && Spaces(pad[..|pad| - 1]) && Space(pad[0]) && Space(pad[|pad| - 1])
  {
    hide Space;
  }

  lemma SpaceAhead(c: byte, b: Bytes)
    requires Space(c)
    ensures TrimSpace([c] + b) == TrimSpace(b)
  {
    assert ([c] + b)[..1] == [c] && ([c] + b)[1..] == b;
  }

  lemma SpaceBehindVisible(v: Bytes, b: Bytes, c: byte)
    requires Space(c) && v != [] && Visible(v) && v <= b
    ensures TrimSpace(b + [c]) == TrimSpace(b)
  {
    NoSpaceBefore(b + [c]);
    assert (b + [c])[|b|..] == [c] && (b + [c])[..|b|] == b;
    hide SpaceBefore;
  }

  lemma {:induction false} TrimsBehind(v: Bytes, pad: Bytes)
    requires Visible(v) && Spaces(pad)
    ensures TrimSpace(v + pad) == v
    decreases |pad|
  {
    if pad == [] {
      assert v + pad == v;
      if v != [] {
        NoSpaceBefore(v);
        NoSpaceBehind(v);
      }
      hide SpaceBefore, SpaceBehind;
    } else if v == [] {
      FewerSpaces(pad);
      assert v + pad == [pad[0]] + pad[1..] && v + pad[1..] == pad[1..];
      SpaceAhead(pad[0], pad[1..]);
      hide *;
      TrimsBehind(v, pad[1..]);
    } else {
      FewerSpaces(pad);
      var n := |pad| - 1;
      assert v + pad == v + pad[..n] + [pad[n]];
      SpaceBehindVisible(v, v + pad[..n], pad[n]);
      hide *;
      TrimsBehind(v, pad[..n]);
    }
  }

  lemma NoSpaceBefore(b: Bytes)
    requires b != [] && 0x21 <= b[0] <= 0x7e
    ensures SpaceBefore(b) == 0
  {}

  lemma NoSpaceBehind(b: Bytes)
    requires b != [] && 0x21 <= b[|b| - 1] <= 0x7e
    ensures SpaceBehind(b) == 0
  {}

  /** A request line with a target, no empty lines, and the first Host header is the one of interest. */
  ghost predicate Request(first: Bytes, target: Bytes, before: seq<Bytes>, name: Bytes, value: Bytes, after: seq<Bytes>) {
    && SecondField(first, target) && SpellsHost(name)
    && (forall l :: l in before ==> OtherHeader(l))
    && forall l :: l in RequestLines(first, before, name, value, after) ==> SingleLine(l)
  }

  lemma RequestParts(first: Bytes, target: Bytes, before: seq<Bytes>, name: Bytes, value: Bytes, after: seq<Bytes>)
    requires Request(first, target, before, name, value, after)
    ensures Target(first) == Some(target)
    ensures (forall l :: l in before ==> HostValue(l).None?) && IsHost(name) && Index(name, [COLON]).None?
    ensures forall l :: l in RequestLines(first, before, name, value, after) ==> Line(l)
  {
    TargetIff(first, target);
    MarkNone(name, COLON);
    IsHostIff(name);
    forall l ensures Line(l) == SingleLine(l) && HostValue(l).None? == OtherHeader(l) {
      LineIff(l);
      HeaderIff(l);
    }
    hide Line, SingleLine, HostValue, OtherHeader, IsHost, Index, RequestLines, Target, SecondField;
  }

  /**
    The head of any request whose lines are not empty ends at its first blank line, and its path and
    the value of its first Host header are found, whatever the other headers and the body are.
   */
  lemma HeadRoundTrip(first: Bytes, target: Bytes, before: seq<Bytes>, name: Bytes, pad: Bytes, host: Bytes, pad': Bytes,
                      after: seq<Bytes>, body: Bytes, path: Bytes)
    requires Request(first, target, before, name, pad + host + pad', after)
    requires Spaces(pad) && Visible(host) && Spaces(pad') && PathOf(target, path)
    ensures var hdr := Join(RequestLines(first, before, name, pad + host + pad', after));
      && Index(hdr + [0x0d, 0x0a, 0x0d, 0x0a] + body, BLANK) == Some(|hdr|)
      && ParseHead(hdr) == Some((host, path))
  {
    Trims(pad, host, pad');
    PathIs(target, path);
    RequestParts(first, target, before, name, pad + host + pad', after);
    var value := pad + host + pad';
    var lines := RequestLines(first, before, name, value, after);
    HostFound(name, value);
    hide Line, HostValue, Target, IsHost, TrimSpace, PathOnly;
    HostAfter(before, name + [COLON] + value, after);
    LinesOfJoin(lines);
    BlankAfterJoin(lines, body);
    assert lines[1..] == before + ([name + [COLON] + value] + after);
    hide Lines, Join, Index, HostIn;
  }

  /** Without a Host header the host is empty. */
  lemma HeadWithoutHost(first: Bytes, target: Bytes, more: seq<Bytes>, path: Bytes)
    requires SecondField(first, target) && PathOf(target, path)
    requires (forall l :: l in [first] + more ==> SingleLine(l)) && forall l :: l in more ==> OtherHeader(l)
    ensures ParseHead(Join([first] + more)) == Some(([], path))
  {
    TargetIff(first, target);
    PathIs(target, path);
    NoHostHeader(more);
    forall l | l in [first] + more ensures Line(l) {
      LineIff(l);
    }
    LinesOfJoin([first] + more);
    assert ([first] + more)[1..] == more;
    hide Line, SingleLine, Join, Lines, Target, SecondField, PathOf, PathOnly, HostIn, OtherHeader;
  }

  /** A first line without a space is not a request line. */
  lemma NoSpaceNoHead(first: Bytes, more: seq<Bytes>)
    requires 0x20 !in first && forall l :: l in [first] + more ==> SingleLine(l)
    ensures ParseHead(Join([first] + more)).None?
  {
    MarkNone(first, SPACE);
    forall l | l in [first] + more ensures Line(l) {
      LineIff(l);
    }
    LinesOfJoin([first] + more);
    hide Line, SingleLine, Join, Lines;
  }

  lemma {:induction false} NoHostHeader(lines: seq<Bytes>)
    requires forall l :: l in lines ==> OtherHeader(l)
    ensures HostIn(lines) == []
  {
    if lines != [] {
      assert lines[0] in lines;
      HeaderIff(lines[0]);
      NoHostHeader(lines[1..]);
      hide HostValue, OtherHeader;
    }
  }
}
