/** The streaming response of a handler (sock.go:456-484, 513-528). */
module StreamWriter {
  import opened Bytes

  /** Frames written for one request: 'S' with a chunk, or 'E' with a message. */
  datatype Frame = S(chunk: seq<byte>) | E(msg: seq<byte>)

  /** What a handler does with its writer. */
  datatype Op = Write(b: seq<byte>) | Close

  class Writer {
    var wroteEOS: bool
    var out: seq<Frame> // what went to the connection
    var budget: nat     // the frames that the connection will still take

    constructor (budget: nat)
      ensures !wroteEOS && out == [] && this.budget == budget
    {
      wroteEOS, out, this.budget := false, [], budget;
    }

    /** writeMsg; false if it returns an error. */
    method Put(f: Frame) returns (ok: bool)
      modifies `out, `budget
      ensures ok == (old(budget) > 0)
      ensures out == old(out) + (if ok then [f] else []) && budget == old(budget) - if ok then 1 else 0
    {
      ok := budget > 0;
      if ok {
        out := out + [f];
        budget := budget - 1;
      }
    }

    method Write(b: seq<byte>) returns (ok: bool)
      modifies this
      ensures ok == (old(budget) > 0) && wroteEOS == (old(wroteEOS) || b == [])
      ensures out == old(out) + (if ok then [S(b)] else []) && budget == old(budget) - if ok then 1 else 0
    {
      if |b| == 0 {
        wroteEOS := true;
      }
      ok := Put(S(b));
    }

    method Close() returns (ok: bool)
      modifies this
      ensures wroteEOS && ok == (old(wroteEOS) || old(budget) > 0)
      ensures out == old(out) + (if !old(wroteEOS) && ok then [S([])] else [])
      ensures budget == old(budget) - if !old(wroteEOS) && ok then 1 else 0
    {
      ok := true;
      if !wroteEOS {
        wroteEOS := true;
        ok := Put(S([]));
      }
    }
  }

  /** The frames of a script that starts with or without the end of stream already written. */
  function Emitted(script: seq<Op>, eos: bool): seq<Frame>
    decreases |script|
  {
    if script == [] then []
    else
      match script[0]
      case Write(b) => [S(b)] + Emitted(script[1..], eos || b == [])
      case Close => (if eos then [] else [S([])]) + Emitted(script[1..], true)
  }

  /** The operation puts the end of the stream on the wire if it is not there yet. */
  predicate Ends(op: Op) {
    op.Close? || op.b == []
  }

  predicate HasEnd(script: seq<Op>) {
    exists i :: 0 <= i < |script| && Ends(script[i])
  }

  function ErrorFrame(fail: Option<seq<byte>>): seq<Frame> {
    if fail.Some? then [E(fail.value)] else []
  }

  /** Everything written for a request by a handler that runs the script and returns, with or without an error. */
  function Trace(script: seq<Op>, fail: Option<seq<byte>>): seq<Frame> {
    Emitted(script, false) + ErrorFrame(fail) + if HasEnd(script) then [] else [S([])]
  }

  lemma {:induction false} EmittedSnoc(script: seq<Op>, op: Op, eos: bool)
    ensures Emitted(script + [op], eos) ==
            Emitted(script, eos) +
            (match op case Write(b) => [S(b)] case Close => if eos || HasEnd(script) then [] else [S([])])
    decreases |script|
  {
    if script == [] {
      assert Emitted([], eos) == [];
      assert ([op])[1..] == [] && [] + [op] == [op];
    } else {
      assert (script + [op])[1..] == script[1..] + [op];
      EmittedSnoc(script[1..], op, eos || Ends(script[0]));
      HasEndCons(script);
    }
  }

  lemma HasEndCons(script: seq<Op>)
    requires script != []
    ensures HasEnd(script) <==> Ends(script[0]) || HasEnd(script[1..])
  {
    if HasEnd(script) && !Ends(script[0]) {
      var i :| 0 <= i < |script| && Ends(script[i]);
      assert Ends(script[1..][i - 1]);
    }
    if HasEnd(script[1..]) {
      var i :| 0 <= i < |script| - 1 && Ends(script[1..][i]);
      assert Ends(script[i + 1]);
    }
  }

  lemma HasEndSnoc(script: seq<Op>, op: Op)
    ensures HasEnd(script + [op]) <==> HasEnd(script) || Ends(op)
  {
    var t := script + [op];
    if HasEnd(script) {
      var i :| 0 <= i < |script| && Ends(script[i]);
      assert Ends(t[i]);
    }
    assert t[|script|] == op;
    if HasEnd(t) {
      var i :| 0 <= i < |t| && Ends(t[i]);
      if i < |script| {
        assert Ends(script[i]);
      }
    }
  }

  /** What a connection that takes n frames takes of these. */
  function Cut(fs: seq<Frame>, n: nat): seq<Frame> {
    if |fs| <= n then fs else fs[..n]
  }

  /** The writer has emitted the frames fs, as far as a connection that takes n frames took them. */
  ghost predicate Emits(w: Writer, fs: seq<Frame>, n: nat)
    reads w
  {
    w.out == Cut(fs, n) && w.budget == n - |w.out|
  }

  lemma CutGrows(fs: seq<Frame>, gs: seq<Frame>, n: nat)
    requires |gs| <= 1
    ensures Cut(fs + gs, n) == Cut(fs, n) + if n > |fs| then gs else []
  {
  }

  /**
   The goroutine of readStreamReq: handler, error response, close. What goes out is the trace of
   the handler's script, as far as the connection takes it.
   */
  method RunHandler(script: seq<Op>, fail: Option<seq<byte>>, n: nat) returns (trace: seq<Frame>)
    ensures trace == Cut(Trace(script, fail), n)
  {
    var w := new Writer(n);
    var i := 0;
    while i < |script|
      invariant 0 <= i <= |script|
      invariant Emits(w, Emitted(script[..i], false), n) && w.wroteEOS == HasEnd(script[..i])
    {
      ghost var fs := Emitted(script[..i], false);
      EmittedSnoc(script[..i], script[i], false);
      HasEndSnoc(script[..i], script[i]);
      assert script[..i + 1] == script[..i] + [script[i]];
      CutGrows(fs, Emitted(script[..i + 1], false)[|fs|..], n);
      match script[i] {
        case Write(b) => var _ := w.Write(b);
        case Close => var _ := w.Close();
      }
      i := i + 1;
    }
    assert script[..i] == script;
    CutGrows(Emitted(script, false), ErrorFrame(fail), n);
    if fail.Some? {
      var _ := w.Put(E(fail.value));
    }
    CutGrows(Emitted(script, false) + ErrorFrame(fail), if HasEnd(script) then [] else [S([])], n);
    var _ := w.Close();
    trace := w.out;
  }

  // ----- The shape of a response --------------------------------------------------------------

  /** Chunks, then exactly one empty 'S' that no other 'S' follows. */
  predicate Shaped(trace: seq<Frame>) {
    && (exists i :: 0 <= i < |trace| && trace[i] == S([]))
    && (forall i, j :: 0 <= i < j < |trace| && trace[i] == S([]) ==> !trace[j].S?)
  }

  /** Nothing is written once the end of the stream has been. */
  predicate Tidy(script: seq<Op>) {
    forall i, j :: 0 <= i < j < |script| && Ends(script[i]) ==> !script[j].Write?
  }

  /** The chunks written. */
  function ChunksOf(script: seq<Op>): seq<Frame> {
    if script == [] || Ends(script[0]) then [] else [S(script[0].b)] + ChunksOf(script[1..])
  }

  lemma {:induction false} AfterEnd(script: seq<Op>)
    ensures (Emitted(script, true) == []) <==> (forall i :: 0 <= i < |script| ==> script[i].Close?)
    ensures Emitted(script, true) != [] ==> exists i :: 0 <= i < |Emitted(script, true)| && Emitted(script, true)[i].S?
    decreases |script|
  {
    if script != [] {
      AfterEnd(script[1..]);
      if script[0].Write? {
        assert Emitted(script, true)[0] == S(script[0].b);
      } else {
        assert Emitted(script, true) == Emitted(script[1..], true);
        assert forall i :: 0 <= i < |script| - 1 ==> script[1..][i] == script[i + 1];
      }
    }
  }

  /** A tidy script puts its chunks on the wire, and an end behind them if it wrote one. */
  lemma {:induction false} TidyEmits(script: seq<Op>)
    requires Tidy(script)
    ensures Emitted(script, false) == ChunksOf(script) + if HasEnd(script) then [S([])] else []
    ensures forall i :: 0 <= i < |ChunksOf(script)| ==> ChunksOf(script)[i].S? && ChunksOf(script)[i].chunk != []
    decreases |script|
  {
    if script != [] {
      HasEndCons(script);
      if Ends(script[0]) {
        assert forall i :: 0 <= i < |script| - 1 ==> script[1..][i] == script[i + 1];
        AfterEnd(script[1..]);
      } else {
        assert Tidy(script[1..]) by {
          assert forall i :: 0 <= i < |script| - 1 ==> script[1..][i] == script[i + 1];
        }
        TidyEmits(script[1..]);
      }
    }
  }

  lemma ShapeOfParts(c: seq<Frame>, e: seq<Frame>, closed: bool)
    requires forall i :: 0 <= i < |c| ==> c[i] != S([])
    requires forall i :: 0 <= i < |e| ==> !e[i].S?
    ensures Shaped(if closed then c + [S([])] + e else c + e + [S([])])
  {
    var t := if closed then c + [S([])] + e else c + e + [S([])];
    assert t[if closed then |c| else |c| + |e|] == S([]);
  }

  /** A script that writes behind its end puts an 'S' behind an empty 'S'. */
  lemma {:induction false} UntidyEmits(script: seq<Op>) returns (p: nat, q: nat)
    requires !Tidy(script)
    ensures p < q < |Emitted(script, false)| && Emitted(script, false)[p] == S([]) && Emitted(script, false)[q].S?
    decreases |script|
  {
    var rest := script[1..];
    var i, j :| 0 <= i < j < |script| && Ends(script[i]) && script[j].Write?;
    if Ends(script[0]) {
      AfterEnd(rest);
      assert rest[j - 1].Write?;
      q :| 0 <= q < |Emitted(rest, true)| && Emitted(rest, true)[q].S?;
      p, q := 0, q + 1;
    } else {
      assert Ends(rest[i - 1]) && rest[j - 1].Write?;
      p, q := UntidyEmits(rest);
      p, q := p + 1, q + 1;
    }
  }

  /**
   The response of a handler that writes nothing behind the end of its stream is its chunks, in
   order, then, if it failed, one error, and exactly one empty 'S': behind the error, or before
   it if the handler had already closed the stream.
   */
  lemma TraceOfTidy(script: seq<Op>, fail: Option<seq<byte>>)
    requires Tidy(script)
    ensures Trace(script, fail) ==
            if HasEnd(script) then ChunksOf(script) + [S([])] + ErrorFrame(fail)
            else ChunksOf(script) + ErrorFrame(fail) + [S([])]
  {
    TidyEmits(script);
  }

  /** One end of stream that no chunk follows: exactly the scripts that write nothing behind their end. */
  lemma ShapedExactly(script: seq<Op>, fail: Option<seq<byte>>)
    ensures Shaped(Trace(script, fail)) <==> Tidy(script)
  {
    hide Emitted, ChunksOf, Shaped, Tidy;
    if Tidy(script) {
      TraceOfTidy(script, fail);
      TidyEmits(script);
      ShapeOfParts(ChunksOf(script), ErrorFrame(fail), HasEnd(script));
    } else {
      var p, q := UntidyEmits(script);
      NotShaped(Trace(script, fail), p, q);
    }
  }

  lemma NotShaped(t: seq<Frame>, p: nat, q: nat)
    requires p < q < |t| && t[p] == S([]) && t[q].S?
    ensures !Shaped(t)
  {
  }
}
