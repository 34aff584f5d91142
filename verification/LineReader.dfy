/**
 * Line reassembly on a control connection (`handleClient` in src/opus-controller/controller.cpp):
 * received chunks are appended to a pending buffer from which complete lines are taken.
 */
module LineReader {
  import opened Arith

  /** Position of the first newline, or the length. */
  function Find(s: string): (p: nat)
    ensures p <= |s| && (forall i :: 0 <= i < p ==> s[i] != '\n') && (p < |s| ==> s[p] == '\n')
  {
    if s == [] then 0 else if s[0] == '\n' then 0 else 1 + Find(s[1..])
  }

  /** A carriage return before the newline is dropped. */
  function Strip(l: string): string { if l != [] && l[|l| - 1] == '\r' then l[..|l| - 1] else l }

  /** The complete lines of a byte stream. */
  function Lines(s: string): seq<string>
    decreases |s|
  {
    if Find(s) == |s| then [] else [Strip(s[..Find(s)])] + Lines(s[Find(s) + 1..])
  }

  /** What follows the last newline. */
  function Rest(s: string): string
    decreases |s|
  {
    if Find(s) == |s| then s else Rest(s[Find(s) + 1..])
  }

  lemma FindUnique(s: string, p: nat)
    requires p <= |s| && (forall i :: 0 <= i < p ==> s[i] != '\n') && (p < |s| ==> s[p] == '\n')
    ensures Find(s) == p
  {
  }

  /** The first line and what is left after it. */
  lemma TakeLine(s: string, p: nat)
    requires p == Find(s) < |s|
    ensures Lines(s) == [Strip(s[..p])] + Lines(s[p + 1..]) && Rest(s) == Rest(s[p + 1..])
  {
  }

  lemma {:induction false} FindConcat(a: string, b: string)
    requires Find(a) < |a|
    ensures Find(a + b) == Find(a)
  {
    assert (a + b)[0] == a[0] && (a + b)[1..] == a[1..] + b;
    if a[0] != '\n' { FindConcat(a[1..], b); }
  }

  lemma TakeLineOf(a: string, b: string, p: nat, t: string)
    requires p == Find(a) < |a| && t == a[p + 1..]
    ensures Lines(a + b) == [Strip(a[..p])] + Lines(t + b) && Rest(a + b) == Rest(t + b)
  {
    FindConcat(a, b);
    assert (a + b)[..p] == a[..p] && (a + b)[p + 1..] == t + b;
    TakeLine(a + b, p);
  }

  /** Taking the lines chunk by chunk gives the lines of the whole stream. */
  lemma {:induction false} Chunks(a: string, b: string)
    ensures Lines(a + b) == Lines(a) + Lines(Rest(a) + b) && Rest(a + b) == Rest(Rest(a) + b)
    decreases |a|, 1
  {
    var p := Find(a);
    if p < |a| {
      ChunksStep(a, b, p);
    } else {
      assert Lines(a) == [] && Rest(a) == a;
    }
  }

  lemma {:induction false} ChunksStep(a: string, b: string, p: nat)
    requires p == Find(a) < |a|
    ensures Lines(a + b) == Lines(a) + Lines(Rest(a) + b) && Rest(a + b) == Rest(Rest(a) + b)
    decreases |a|, 0
  {
    var t := a[p + 1..];
    Chunks(t, b);
    TakeLineOf(a, b, p, t);
    TakeLine(a, p);
    Assoc([Strip(a[..p])], Lines(t), Lines(Rest(t) + b));
  }

  /** No newline, and no carriage return at the end. */
  predicate Plain(l: string)
  {
    (forall i :: 0 <= i < |l| ==> l[i] != '\n') && (l != [] ==> l[|l| - 1] != '\r')
  }

  /** The stream that sends the given lines. */
  function Joined(ls: seq<string>): string { if ls == [] then "" else ls[0] + "\n" + Joined(ls[1..]) }

  lemma LineFirst(l: string, rest: string)
    requires forall i :: 0 <= i < |l| ==> l[i] != '\n'
    ensures Lines(l + "\n" + rest) == [Strip(l)] + Lines(rest) && Rest(l + "\n" + rest) == Rest(rest)
  {
    var s := l + "\n" + rest;
    FindUnique(s, |l|);
    assert s[..|l|] == l && s[|l| + 1..] == rest;
    TakeLine(s, |l|);
  }

  /** A carriage return in front of the newline is dropped, and nothing else. */
  lemma CarriageReturnDropped(l: string, rest: string)
    requires Plain(l)
    ensures Lines(l + "\r" + "\n" + rest) == Lines(l + "\n" + rest) == [l] + Lines(rest)
  {
    var r := l + "\r";
    assert r[..|l|] == l && forall i :: 0 <= i < |r| ==> r[i] != '\n';
    LineFirst(r, rest);
    LineFirst(l, rest);
  }

  /** Lines are received as they were sent. */
  lemma {:induction false} SentLinesReceived(ls: seq<string>)
    requires forall i :: 0 <= i < |ls| ==> Plain(ls[i])
    ensures Lines(Joined(ls)) == ls && Rest(Joined(ls)) == ""
  {
    if ls != [] {
      SentLinesReceived(ls[1..]);
      LineFirst(ls[0], Joined(ls[1..]));
      assert [ls[0]] + ls[1..] == ls;
    }
  }

  class Connection {
    var pending: string
    ghost var stream: string
    ghost var delivered: seq<string>

    /** Whatever the chunks were, the lines delivered are those of the stream so far. */
    ghost predicate Valid()
      reads this
    {
      pending == Rest(stream) && delivered == Lines(stream)
    }

    constructor ()
      ensures Valid() && stream == "" && delivered == []
    {
      pending, stream, delivered := "", "", [];
    }

    /** One successful `recv`: returns the lines passed on to `processLine`. */
    method Receive(chunk: string) returns (lines: seq<string>)
      requires Valid()
      modifies this
      ensures Valid() && stream == old(stream) + chunk && delivered == old(delivered) + lines
    {
      Chunks(stream, chunk);
      pending := pending + chunk;
      lines := [];
      ghost var all := pending;
      var pos := Find(pending);
      while pos < |pending|
        invariant pos == Find(pending) && lines + Lines(pending) == Lines(all) && Rest(pending) == Rest(all)
        invariant stream == old(stream) && delivered == old(delivered)
        decreases |pending|
      {
        TakeLine(pending, pos);
        Assoc(lines, [Strip(pending[..pos])], Lines(pending[pos + 1..]));
        var line := pending[..pos];
        pending := pending[pos + 1..];
        if line != [] && line[|line| - 1] == '\r' { line := line[..|line| - 1]; }
        lines := lines + [line];
        pos := Find(pending);
      }
      assert Lines(pending) == [] && Rest(pending) == pending;
      stream := stream + chunk;
      delivered := delivered + lines;
    }
  }
}
