/** The line loop of `grep`, which reads its input in pieces of any size through a fixed buffer. */
module GrepLines {
  import opened Grep

  const NUL := '\0'

  /** The size of `buf`. */
  const BUFSIZE := 1024

  predicate Stops(x: char) {
    x == '\n' || x == NUL
  }

  /** Where the first newline or NUL at or behind `from` is, or the length if there is none. */
  function Stop(w: string, from: nat): (k: nat)
    requires from <= |w|
    ensures from <= k <= |w| && (forall l :: from <= l < k ==> !Stops(w[l])) && (k < |w| ==> Stops(w[k]))
    decreases |w| - from
  {
    if from == |w| || Stops(w[from]) then from else Stop(w, from + 1)
  }

  /** At `from` begins a whole line that fits into the buffer. */
  predicate HasLine(w: string, from: nat)
    requires from <= |w|
  {
    var k := Stop(w, from); k < |w| && w[k] == '\n' && k - from < BUFSIZE - 1
  }

  /** `picks` is the set of texts that match. */
  ghost predicate Picks(re: string, picks: iset<string>) {
    forall t: string {:trigger Matches(re, t)} :: t in picks <==> Matches(re, t)
  }

  ghost function Line(picks: iset<string>, w: string, from: nat, k: nat): string
    requires from <= k < |w|
  {
    if w[from..k] in picks then w[from..k + 1] else []
  }

  /** The lines of `w` from `from` on that match, up to the first line that is unfinished, too long or holds
      a NUL. */
  ghost function Select(picks: iset<string>, w: string, from: nat): string
    requires from <= |w|
    decreases |w| - from
  {
    if !HasLine(w, from) then [] else Line(picks, w, from, Stop(w, from)) + Select(picks, w, Stop(w, from) + 1)
  }

  /** `out` followed by what is to be printed from `from` on. */
  ghost function Rest(picks: iset<string>, w: string, from: nat, out: string): string
    requires from <= |w|
    decreases |w| - from
  {
    if !HasLine(w, from) then out else Rest(picks, w, Stop(w, from) + 1, out + Line(picks, w, from, Stop(w, from)))
  }

  lemma {:induction false} RestIs(picks: iset<string>, w: string, from: nat, out: string)
    requires from <= |w|
    ensures Rest(picks, w, from, out) == out + Select(picks, w, from)
    decreases |w| - from
  {
    if HasLine(w, from) {
      var line, k := Line(picks, w, from, Stop(w, from)), Stop(w, from) + 1;
      RestIs(picks, w, k, out + line);
      assert (out + line) + Select(picks, w, k) == out + (line + Select(picks, w, k));
    }
  }

  /** With `out` printed, going on from `at` leads to `all`. */
  ghost predicate Progress(all: string, picks: iset<string>, w: string, out: string, at: nat) {
    at <= |w| && Rest(picks, w, at, out) == all
  }

  lemma NextLine(all: string, picks: iset<string>, w: string, out: string, at: nat, k: nat, line: string)
    requires Progress(all, picks, w, out, at) && HasLine(w, at) && k == Stop(w, at) && line == Line(picks, w, at, k)
    ensures Progress(all, picks, w, out + line, k + 1)
  {
  }

  /** `strchr(p, '\n')` on the NUL-terminated text in `buf`; `q` is where it ends or finds a newline. */
  method Strchr(buf: array<char>, p: nat, m: nat) returns (q: nat)
    requires p <= m < buf.Length && buf[m] == NUL
    ensures p <= q <= m && (forall l :: p <= l < q ==> !Stops(buf[l])) && Stops(buf[q])
  {
    q := p;
    while buf[q] != '\n' && buf[q] != NUL
      invariant p <= q <= m
      invariant forall l :: p <= l < q ==> !Stops(buf[l])
      decreases m - q
    {
      q := q + 1;
    }
  }

  /** The body of the inner loop, for the line from `p` to `q`: what it prints. */
  method PrintLine(re: string, ghost picks: iset<string>, buf: array<char>, p: nat, q: nat) returns (out: string)
    requires Picks(re, picks) && p <= q < buf.Length && buf[q] == '\n'
    modifies buf
    ensures forall l :: 0 <= l < buf.Length && l != q ==> buf[l] == old(buf[l])
    ensures out == Line(picks, old(buf[..]), p, q)
  {
    buf[q] := NUL;
    assert buf[p..q] == old(buf[..])[p..q];
    var ok := Match(re, buf[p..q]);
    if !ok {
      return [];
    }
    buf[q] := '\n';
    assert buf[p..q + 1] == old(buf[..])[p..q + 1];
    return buf[p..q + 1];
  }

  /** `buf[p..m]` shows the input, whose byte `o` is or was at the front of the buffer, and `out` has been
      printed for all that comes before. */
  ghost predicate Stage(all: string, picks: iset<string>, buf: array<char>, p: nat, m: nat, input: string, o: nat,
                        out: string)
    reads buf
  {
    p <= m < buf.Length == BUFSIZE && o + m <= |input| && (forall l :: p <= l < m ==> buf[l] == input[o + l]) &&
    Progress(all, picks, input, out, o + p)
  }

  /** A line found in the buffer is the next line of the input. */
  lemma ShowsLine(picks: iset<string>, text: string, p: nat, q: nat, m: nat, input: string, o: nat)
    requires p <= q < m < |text| == BUFSIZE && o + m <= |input| && forall l :: p <= l < m ==> text[l] == input[o + l]
    requires text[q] == '\n' && forall l :: p <= l < q ==> !Stops(text[l])
    ensures HasLine(input, o + p) && Stop(input, o + p) == o + q &&
            Line(picks, input, o + p, o + q) == Line(picks, text, p, q)
  {
    forall l | o + p <= l < o + q ensures !Stops(input[l]) {
      assert input[l] == text[l - o];
    }
    StopIs(input, o + p, o + q);
    assert input[o + p..o + q] == text[p..q] && input[o + p..o + q + 1] == text[p..q + 1];
  }

  lemma NextStage(all: string, picks: iset<string>, text: string, p: nat, q: nat, m: nat, input: string, o: nat,
                  out: string)
    requires p <= q < m < |text| == BUFSIZE && o + m <= |input| && forall l :: p <= l < m ==> text[l] == input[o + l]
    requires text[q] == '\n' && (forall l :: p <= l < q ==> !Stops(text[l])) && Progress(all, picks, input, out, o + p)
    ensures Progress(all, picks, input, out + Line(picks, text, p, q), o + q + 1)
  {
    ShowsLine(picks, text, p, q, m, input, o);
    NextLine(all, picks, input, out, o + p, o + q, Line(picks, text, p, q));
  }

  /** One turn of the inner loop. */
  method PrintNext(re: string, ghost all: string, ghost picks: iset<string>, buf: array<char>, p: nat, q: nat, m: nat,
                   ghost input: string, ghost o: nat, out0: string)
    returns (out: string)
    requires Picks(re, picks) && Stage(all, picks, buf, p, m, input, o, out0)
    requires p <= q < m && buf[q] == '\n' && forall l :: p <= l < q ==> !Stops(buf[l])
    modifies buf
    ensures buf[m] == old(buf[m]) && Stage(all, picks, buf, q + 1, m, input, o, out)
  {
    NextStage(all, picks, buf[..], p, q, m, input, o, out0);
    var line := PrintLine(re, picks, buf, p, q);
    out := out0 + line;
  }

  /** The inner loop: it prints until there is no whole line in `buf[p..m]`. */
  method PrintLines(re: string, ghost all: string, ghost picks: iset<string>, buf: array<char>, m: nat,
                    ghost input: string, ghost o: nat, out0: string)
    returns (out: string, p: nat)
    requires Picks(re, picks) && Stage(all, picks, buf, 0, m, input, o, out0) && buf[m] == NUL
    modifies buf
    ensures Stage(all, picks, buf, p, m, input, o, out) && NoLine(buf, p, m)
  {
    out, p := out0, 0;
    var q := Strchr(buf, p, m);
    while buf[q] == '\n'
      invariant Stage(all, picks, buf, p, m, input, o, out) && buf[m] == NUL
      invariant p <= q <= m && (forall l :: p <= l < q ==> !Stops(buf[l])) && Stops(buf[q])
      decreases m - p
    {
      out := PrintNext(re, all, picks, buf, p, q, m, input, o, out);
      p := q + 1;
      q := Strchr(buf, p, m);
    }
    assert NoLineTo(buf, p, q, m);
  }

  /** There is no newline in `buf[p..m]` before its first NUL. */
  ghost predicate NoLine(buf: array<char>, p: nat, m: nat)
    requires m < buf.Length
    reads buf
  {
    exists q: nat :: NoLineTo(buf, p, q, m)
  }

  ghost predicate NoLineTo(buf: array<char>, p: nat, q: nat, m: nat)
    requires m < buf.Length
    reads buf
  {
    p <= q <= m && (forall l :: p <= l < q ==> !Stops(buf[l])) && (q < m ==> buf[q] == NUL)
  }

  lemma StopIs(w: string, from: nat, k: nat)
    requires from <= k < |w| && Stops(w[k]) && forall l :: from <= l < k ==> !Stops(w[l])
    ensures Stop(w, from) == k
  {
  }

  /** Once all has been read, or the buffer is full, a text without a line never yields one. */
  lemma NoMoreLines(all: string, picks: iset<string>, buf: array<char>, m: nat, input: string, o: nat, out: string)
    requires Stage(all, picks, buf, 0, m, input, o, out) && NoLine(buf, 0, m) && (o + m == |input| || m == BUFSIZE - 1)
    ensures out == all
  {
    var q: nat :| NoLineTo(buf, 0, q, m);
    forall l | o <= l < o + q ensures !Stops(input[l]) {
      assert input[l] == buf[l - o];
    }
    if q < m {
      assert input[o + q] == buf[q];
      StopIs(input, o, o + q);
    }
    assert !HasLine(input, o);
  }

  /** `read` puts the next `n` bytes of the input behind the `m` bytes in the buffer. */
  method Fill(ghost all: string, ghost picks: iset<string>, buf: array<char>, m: nat, input: string, o: nat, n: nat,
              ghost out: string)
    requires Stage(all, picks, buf, 0, m, input, o, out) && m + n < BUFSIZE && o + m + n <= |input|
    modifies buf
    ensures Stage(all, picks, buf, 0, m + n, input, o, out) && buf[m + n] == NUL
  {
    for i := 0 to n
      invariant forall l :: 0 <= l < m + i ==> buf[l] == input[o + l]
    {
      buf[m + i] := input[o + m + i];
    }
    buf[m + n] := NUL;
  }

  /** `memmove(buf, p, m - p)`. */
  method Move(buf: array<char>, p: nat, m: nat)
    requires p <= m <= buf.Length
    modifies buf
    ensures forall l :: 0 <= l < m - p ==> buf[l] == old(buf[p + l])
  {
    for i := 0 to m - p
      invariant forall l :: 0 <= l < i ==> buf[l] == old(buf[p + l])
      invariant forall l :: p + i <= l < buf.Length ==> buf[l] == old(buf[l])
    {
      buf[i] := buf[p + i];
    }
  }

  /** The rest of the outer loop's body: what is left of the text goes to the front of the buffer. */
  method Keep(ghost all: string, ghost picks: iset<string>, buf: array<char>, p: nat, m: nat, ghost input: string,
              ghost o: nat, ghost out: string)
    requires Stage(all, picks, buf, p, m, input, o, out) && NoLine(buf, p, m)
    modifies buf
    ensures Stage(all, picks, buf, 0, m - p, input, o + p, out) && NoLine(buf, 0, m - p)
  {
    ghost var q: nat :| NoLineTo(buf, p, q, m);
    Move(buf, p, m);
    assert NoLineTo(buf, 0, q - p, m - p);
  }

  /** The body of the outer loop, after a read of `n` bytes. */
  method Turn(re: string, ghost all: string, ghost picks: iset<string>, buf: array<char>, m0: nat, input: string,
              o0: nat, n: nat, out0: string)
    returns (out: string, m: nat, o: nat)
    requires Picks(re, picks) && Stage(all, picks, buf, 0, m0, input, o0, out0) && m0 + n < BUFSIZE &&
             o0 + m0 + n <= |input|
    modifies buf
    ensures Stage(all, picks, buf, 0, m, input, o, out) && NoLine(buf, 0, m) && o + m == o0 + m0 + n
  {
    Fill(all, picks, buf, m0, input, o0, n, out0);
    var p;
    out, p := PrintLines(re, all, picks, buf, m0 + n, input, o0, out0);
    Keep(all, picks, buf, p, m0 + n, input, o0, out);
    m, o := m0 + n - p, o0 + p;
  }

  /** `grep` on an open file: whatever sizes the reads have, it prints the matching lines of the input, up
      to the first line that is unfinished, too long for the buffer or holds a NUL. A read asks for all the
      free space; the `k`-th one gets at most `1 + sizes[k]` bytes. */
  method GrepFile(re: string, input: string, sizes: seq<nat>, ghost picks: iset<string>) returns (out: string)
    requires Picks(re, picks)
    ensures out == Select(picks, input, 0)
  {
    var buf := new char[BUFSIZE](_ => NUL);
    var m: nat, o: nat, k: nat := 0, 0, 0;
    out := [];
    ghost var all := Select(picks, input, 0);
    RestIs(picks, input, 0, []);
    assert NoLineTo(buf, 0, 0, 0) && Progress(all, picks, input, out, 0);
    while true
      invariant Stage(all, picks, buf, 0, m, input, o, out) && NoLine(buf, 0, m)
      decreases |input| - o - m
    {
      var n := ReadSize(|input| - o - m, BUFSIZE - m - 1, if k < |sizes| then sizes[k] else BUFSIZE);
      k := k + 1;
      if n == 0 {
        break;
      }
      out, m, o := Turn(re, all, picks, buf, m, input, o, n, out);
    }
    NoMoreLines(all, picks, buf, m, input, o, out);
  }

  /** What `read` returns: something, if there is something and space for it. */
  function ReadSize(left: nat, space: nat, size: nat): (n: nat)
    ensures n <= left && n <= space && (n == 0 <==> left == 0 || space == 0)
  {
    var most := if left < space then left else space;
    if most < 1 + size then most else 1 + size
  }
}
