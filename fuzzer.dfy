/** The search loop of the filter fuzzer: each pass samples a filter
    combination, skips it when its label was seen before, and otherwise
    scores the OCR result of the filtered image, prints the score with the
    label and keeps the lowest score so far. */
module Fuzz {
  import opened Text
  import opened Random
  import opened Filters
  import opened Labels
  import opened Sampler
  import opened Scoring

  datatype Option<T> = None | Some(value: T)

  /** `math.MaxInt64`, the best score before any pass. */
  const MaxInt64: int := 0x7fff_ffff_ffff_ffff

  /** One printed line: the score, the label, and whether it was printed in
      green as a new best. */
  datatype Line = Line(errorCount: nat, selected: string, newBest: bool)

  /** The `%d;%s\n` text of a line. */
  function LineText(l: Line): string
  {
    Decimal(l.errorCount) + ";" + l.selected + "\n"
  }

  /** What one pass of the loop did. */
  datatype Outcome =
    | Duplicate(selected: string)   // `continue`: the label was scored before
    | Crashed(selected: string)     // the OCR engine failed and the process panics
    | Reported(line: Line)

  function Min(a: int, b: int): int
  {
    if a <= b then a else b
  }

  /** The value `best` holds after the given lines were printed. */
  function BestOf(lines: seq<Line>): int
  {
    if |lines| == 0 then MaxInt64
    else Min(BestOf(lines[..|lines| - 1]), lines[|lines| - 1].errorCount)
  }

  /** A line is green exactly when its score beat every earlier one and the sentinel. */
  ghost predicate Flagged(lines: seq<Line>)
  {
    forall i :: 0 <= i < |lines| ==> (lines[i].newBest <==> lines[i].errorCount < BestOf(lines[..i]))
  }

  /** No label is printed twice. */
  ghost predicate DistinctLabels(lines: seq<Line>)
  {
    forall i, j :: 0 <= i < j < |lines| ==> lines[i].selected != lines[j].selected
  }

  /** `best` is the least printed score, or the sentinel before any. */
  lemma {:induction false} BestOfIsMinimum(lines: seq<Line>)
    ensures BestOf(lines) <= MaxInt64
    ensures forall i :: 0 <= i < |lines| ==> BestOf(lines) <= lines[i].errorCount
    ensures BestOf(lines) == MaxInt64 || exists i :: 0 <= i < |lines| && BestOf(lines) == lines[i].errorCount
  {
    if |lines| > 0 {
      var init := lines[..|lines| - 1];
      BestOfIsMinimum(init);
      assert forall i :: 0 <= i < |init| ==> init[i] == lines[i];
    }
  }

  /** Green lines have strictly decreasing scores: ties are not flagged. */
  lemma FlaggedAreRecords(lines: seq<Line>, i: nat, j: nat)
    requires Flagged(lines)
    requires i < j < |lines| && lines[j].newBest
    ensures lines[j].errorCount < lines[i].errorCount
  {
    BestOfIsMinimum(lines[..j]);
    assert lines[..j][i] == lines[i];
  }

  /** Once any score was below the sentinel, the best is the score of a green line. */
  lemma {:induction false} BestIsFlagged(lines: seq<Line>)
    requires Flagged(lines)
    requires BestOf(lines) < MaxInt64
    ensures exists i :: 0 <= i < |lines| && lines[i].newBest && lines[i].errorCount == BestOf(lines)
  {
    var n := |lines| - 1;
    var init := lines[..n];
    assert init[..n] == init;
    if lines[n].errorCount < BestOf(init) {
      assert lines[..n] == init;
    } else {
      assert Flagged(init) by {
        forall i | 0 <= i < |init| ensures (init[i].newBest <==> init[i].errorCount < BestOf(init[..i])) {
          assert init[..i] == lines[..i];
        }
      }
      BestIsFlagged(init);
      var i :| 0 <= i < |init| && init[i].newBest && init[i].errorCount == BestOf(init);
      assert lines[i] == init[i];
    }
  }

  /** The line's score reads back from its digits before the `;`. */
  lemma LineRoundTrip(l: Line)
    requires ';' !in l.selected
    ensures Split(LineText(l)[..|LineText(l)| - 1], ';') == [Decimal(l.errorCount), l.selected]
    ensures DecimalValue(Decimal(l.errorCount)) == l.errorCount
  {
    var d := Decimal(l.errorCount);
    assert ';' !in d by {
      forall k | 0 <= k < |d| ensures d[k] != ';' {
        assert IsDigit(d[k]);
      }
    }
    assert LineText(l)[..|LineText(l)| - 1] == d + [';'] + l.selected;
    SplitAt(d, l.selected, ';');
    SplitPlain(l.selected, ';');
    DecimalRoundTrip(l.errorCount);
  }

  /** What the loop carries from pass to pass: the next draw, `om`, `best`
      and the lines printed so far. */
  datatype Search = Search(drawn: nat, seen: set<string>, best: int, printed: seq<Line>)

  /** What stays fixed during a run: the input image, the reference text,
      the generator, the OCR engine and the diff library. */
  datatype Setup = Setup(
    img: Image,
    perfect: string,
    rng: Rng,
    ocr: Image -> Option<string>,
    diff: (string, string) -> seq<Diff>)

  function Start(): Search
  {
    Search(0, {}, MaxInt64, [])
  }

  /** What the loop keeps true: `best` is the least printed score, green
      lines are exactly the new bests, no label is printed twice and every
      printed label is in `om`. */
  ghost predicate Invariant(s: Search)
  {
    && s.best == BestOf(s.printed)
    && Flagged(s.printed)
    && DistinctLabels(s.printed)
    && (forall i :: 0 <= i < |s.printed| ==> s.printed[i].selected in s.seen)
  }

  /** One pass of the loop body: sample, skip a seen label, otherwise record
      it, read the filtered image, score it and print the line. */
  function Pass(c: Setup, s: Search): (Outcome, Search)
  {
    var sample := Sampled(c.rng, s.drawn);
    var selected := Label(sample.combo);
    if selected in s.seen then
      (Duplicate(selected), s.(drawn := sample.next))
    else
      match c.ocr(Apply(sample.combo, c.img))
      case None => (Crashed(selected), s.(drawn := sample.next, seen := s.seen + {selected}))
      case Some(text) =>
        var errorCount := ErrorCount(text, c.perfect, c.diff(text, c.perfect));
        var line := Line(errorCount, selected, errorCount < s.best);
        (Reported(line), Search(sample.next, s.seen + {selected}, Min(s.best, errorCount), s.printed + [line]))
  }

  lemma StartKeepsInvariant()
    ensures Invariant(Start())
  {
  }

  /** Printing one more line with a label not printed before keeps the invariant. */
  lemma {:induction false} PrintKeepsInvariant(s: Search, line: Line, seen: set<string>)
    requires Invariant(s)
    requires s.seen <= seen && line.selected in seen
    requires forall i :: 0 <= i < |s.printed| ==> s.printed[i].selected != line.selected
    requires line.newBest <==> line.errorCount < s.best
    ensures Invariant(Search(s.drawn, seen, Min(s.best, line.errorCount), s.printed + [line]))
  {
    var printed := s.printed + [line];
    assert printed[..|s.printed|] == s.printed;
    assert BestOf(printed) == Min(s.best, line.errorCount);
    forall i | 0 <= i < |s.printed|
      ensures printed[..i] == s.printed[..i]
      ensures BestOf(printed[..i]) == BestOf(s.printed[..i])
    {
      assert printed[..i] == s.printed[..i];
    }
  }

  lemma PassKeepsInvariant(c: Setup, s: Search)
    requires Invariant(s)
    ensures Invariant(Pass(c, s).1)
  {
    var sample := Sampled(c.rng, s.drawn);
    var selected := Label(sample.combo);
    if selected !in s.seen && c.ocr(Apply(sample.combo, c.img)).Some? {
      var text := c.ocr(Apply(sample.combo, c.img)).value;
      var errorCount := ErrorCount(text, c.perfect, c.diff(text, c.perfect));
      PrintKeepsInvariant(s, Line(errorCount, selected, errorCount < s.best), s.seen + {selected});
    }
  }

  /** A pass never raises `best`, never forgets a label, and prints at most
      the one line it reports. */
  lemma PassMonotone(c: Setup, s: Search)
    ensures Pass(c, s).1.best <= s.best
    ensures s.seen <= Pass(c, s).1.seen
    ensures Pass(c, s).1.printed == s.printed + ReportedLines([Pass(c, s).0])
    ensures Pass(c, s).1.drawn == Sampled(c.rng, s.drawn).next
  {
    assert [Pass(c, s).0][..0] == [];
  }

  /** A pass is skipped exactly when its label was seen before; a skipped pass
      only advances the generator. */
  lemma PassDuplicate(c: Setup, s: Search)
    ensures Pass(c, s).0.Duplicate? <==> Label(Sampled(c.rng, s.drawn).combo) in s.seen
    ensures Pass(c, s).0.Duplicate? ==> Pass(c, s).1 == s.(drawn := Sampled(c.rng, s.drawn).next)
  {
  }

  /** A reported line's label had not been scored before, and is recorded. */
  lemma PassReportsNewLabel(c: Setup, s: Search)
    requires Pass(c, s).0.Reported?
    ensures Pass(c, s).0.line.selected !in s.seen
    ensures Pass(c, s).0.line.selected in Pass(c, s).1.seen
    ensures Pass(c, s).0.line.newBest <==> Pass(c, s).0.line.errorCount < s.best
  {
  }

  /** Under a generator whose floats have the `%f` shape, every line a pass
      prints splits back at its one `;` into the score and the label. */
  lemma ReportedLineRoundTrip(c: Setup, s: Search)
    requires WellFormedRng(c.rng)
    requires Pass(c, s).0.Reported?
    ensures Split(LineText(Pass(c, s).0.line)[..|LineText(Pass(c, s).0.line)| - 1], ';')
         == [Decimal(Pass(c, s).0.line.errorCount), Pass(c, s).0.line.selected]
    ensures DecimalValue(Decimal(Pass(c, s).0.line.errorCount)) == Pass(c, s).0.line.errorCount
  {
    var combo := Sampled(c.rng, s.drawn).combo;
    var l := Pass(c, s).0.line;
    assert l.selected == Label(combo);
    PicksWellFormed(c.rng, s.drawn + 1, Requested(c.rng, s.drawn));
    assert AllWellFormed(combo);
    LabelAvoidsSemicolon(combo);
    LineRoundTrip(l);
  }

  /** Up to `n` passes of `pass` from `s`, ending early on a crash. */
  function Iterate(pass: Search -> (Outcome, Search), s: Search, n: nat): (seq<Outcome>, Search)
    decreases n
  {
    if n == 0 then ([], s)
    else if pass(s).0.Crashed? then ([pass(s).0], pass(s).1)
    else ([pass(s).0] + Iterate(pass, pass(s).1, n - 1).0, Iterate(pass, pass(s).1, n - 1).1)
  }

  function PassOf(c: Setup): Search -> (Outcome, Search)
  {
    s => Pass(c, s)
  }

  /** The loop run for at most `n` passes. */
  function Passes(c: Setup, s: Search, n: nat): (seq<Outcome>, Search)
  {
    Iterate(PassOf(c), s, n)
  }

  /** A pass that keeps the invariant keeps it over any number of passes. */
  lemma {:induction false} IterateKeepsInvariant(pass: Search -> (Outcome, Search), s: Search, n: nat)
    requires forall t :: Invariant(t) ==> Invariant(pass(t).1)
    requires Invariant(s)
    ensures Invariant(Iterate(pass, s, n).1)
    decreases n
  {
    if n > 0 && !pass(s).0.Crashed? {
      IterateKeepsInvariant(pass, pass(s).1, n - 1);
    }
  }

  /** A pass that never raises `best`, never forgets a label and prints only
      what it reports does the same over any number of passes. */
  lemma {:induction false} IterateMonotone(pass: Search -> (Outcome, Search), s: Search, n: nat)
    requires forall t :: pass(t).1.best <= t.best && t.seen <= pass(t).1.seen
    requires forall t :: pass(t).1.printed == t.printed + ReportedLines([pass(t).0])
    ensures Iterate(pass, s, n).1.best <= s.best
    ensures s.seen <= Iterate(pass, s, n).1.seen
    ensures Iterate(pass, s, n).1.printed == s.printed + ReportedLines(Iterate(pass, s, n).0)
    decreases n
  {
    if n > 0 && !pass(s).0.Crashed? {
      var os := Iterate(pass, pass(s).1, n - 1).0;
      IterateMonotone(pass, pass(s).1, n - 1);
      ReportedLinesCons(pass(s).0, os);
    }
  }

  /** A run makes at most `n` passes and stops at its first crash. */
  lemma {:induction false} IterateStopsAtCrash(pass: Search -> (Outcome, Search), s: Search, n: nat)
    ensures |Iterate(pass, s, n).0| <= n
    ensures forall i :: 0 <= i < |Iterate(pass, s, n).0| - 1 ==> !Iterate(pass, s, n).0[i].Crashed?
    decreases n
  {
    if n > 0 && !pass(s).0.Crashed? {
      var os := Iterate(pass, pass(s).1, n - 1).0;
      IterateStopsAtCrash(pass, pass(s).1, n - 1);
      assert forall i :: 1 <= i < |[pass(s).0] + os| ==> ([pass(s).0] + os)[i] == os[i - 1];
    }
  }

  /** What is left of a run after its first pass: nothing when that pass
      crashed, otherwise the run of one pass fewer from the state it left. */
  lemma IterateAdvance(pass: Search -> (Outcome, Search), s: Search, n: nat,
                       done: seq<Outcome>, run: (seq<Outcome>, Search))
    requires n > 0
    requires run == (done + Iterate(pass, s, n).0, Iterate(pass, s, n).1)
    ensures pass(s).0.Crashed? ==> run == (done + [pass(s).0], pass(s).1)
    ensures !pass(s).0.Crashed? ==>
      run == ((done + [pass(s).0]) + Iterate(pass, pass(s).1, n - 1).0, Iterate(pass, pass(s).1, n - 1).1)
  {
    if !pass(s).0.Crashed? {
      assert (done + [pass(s).0]) + Iterate(pass, pass(s).1, n - 1).0
        == done + ([pass(s).0] + Iterate(pass, pass(s).1, n - 1).0);
    }
  }

  /** Over a run of the loop, the invariant holds, `best` never rises, `om`
      only grows, only the last pass may crash, and the printed lines are
      those of the reported outcomes. */
  lemma PassesKeepInvariant(c: Setup, s: Search, n: nat)
    requires Invariant(s)
    ensures Invariant(Passes(c, s, n).1)
    ensures Passes(c, s, n).1.best <= s.best
    ensures s.seen <= Passes(c, s, n).1.seen
    ensures Passes(c, s, n).1.printed == s.printed + ReportedLines(Passes(c, s, n).0)
    ensures |Passes(c, s, n).0| <= n
    ensures forall i :: 0 <= i < |Passes(c, s, n).0| - 1 ==> !Passes(c, s, n).0[i].Crashed?
  {
    var pass := PassOf(c);
    forall t ensures pass(t).1.best <= t.best && t.seen <= pass(t).1.seen
      && pass(t).1.printed == t.printed + ReportedLines([pass(t).0])
      && (Invariant(t) ==> Invariant(pass(t).1))
    {
      PassMonotone(c, t);
      if Invariant(t) {
        PassKeepsInvariant(c, t);
      }
    }
    IterateKeepsInvariant(pass, s, n);
    IterateMonotone(pass, s, n);
    IterateStopsAtCrash(pass, s, n);
  }

  lemma {:induction false} ReportedLinesCons(o: Outcome, os: seq<Outcome>)
    ensures ReportedLines([o] + os) == ReportedLines([o]) + ReportedLines(os)
    decreases |os|
  {
    if |os| == 0 {
      assert [o] + os == [o];
    } else {
      var init := os[..|os| - 1];
      assert ([o] + os)[..|[o] + os| - 1] == [o] + init;
      ReportedLinesCons(o, init);
    }
  }

  class Fuzzer {
    /** The decoded input image every pass starts from. */
    const img: Image
    /** The reference text. */
    const perfect: string
    /** The generator's draws. */
    const rng: Rng
    /** The OCR engine: the text it reads, or `None` when it fails. */
    const ocr: Image -> Option<string>
    /** The diff library: `diff(a, b)` is `DiffMain(a, b)`. */
    const diff: (string, string) -> seq<Diff>

    /** The position of the next draw of the generator. */
    var drawn: nat
    /** `om`: every label scored so far. */
    var seen: set<string>
    var best: int
    /** Standard output, line by line. */
    var printed: seq<Line>

    function Config(): Setup
    {
      Setup(img, perfect, rng, ocr, diff)
    }

    function State(): Search
      reads this
    {
      Search(drawn, seen, best, printed)
    }

    ghost predicate Valid()
      reads this
    {
      Invariant(State())
    }

    constructor (img: Image, perfect: string, rng: Rng, ocr: Image -> Option<string>, diff: (string, string) -> seq<Diff>)
      ensures Config() == Setup(img, perfect, rng, ocr, diff)
      ensures State() == Start()
      ensures Valid()
    {
      this.img := img;
      this.perfect := perfect;
      this.rng := rng;
      this.ocr := ocr;
      this.diff := diff;
      drawn := 0;
      seen := {};
      best := MaxInt64;
      printed := [];
    }

    /** One pass of the loop. */
    method Step() returns (o: Outcome)
      requires Valid()
      modifies this
      ensures (o, State()) == Pass(Config(), old(State()))
      ensures Valid()
    {
      PassKeepsInvariant(Config(), State());
      ghost var expected := Pass(Config(), State());
      var combo, selected, t, next := Sample(rng, drawn, img);
      drawn := next;
      if selected in seen {
        o := Duplicate(selected);
        assert (o, State()) == expected;
        return;
      }
      seen := seen + {selected};
      var out := ocr(t);
      if out.None? {
        return Crashed(selected);
      }
      var text := out.value;
      var errorCount := CountErrors(text, perfect, diff(text, perfect));
      var line := Line(errorCount, selected, errorCount < best);
      if errorCount < best {
        best := errorCount;
      }
      printed := printed + [line];
      o := Reported(line);
    }

    /** One turn of the run loop: a pass, with what remains of the run after it. */
    method RunPass(ghost pass: Search -> (Outcome, Search), ghost run: (seq<Outcome>, Search),
                   outcomes: seq<Outcome>, left: nat)
      returns (outcomes': seq<Outcome>, crashed: bool)
      requires Valid() && pass == PassOf(Config()) && left > 0
      requires run == (outcomes + Iterate(pass, State(), left).0, Iterate(pass, State(), left).1)
      modifies this
      ensures Valid()
      ensures crashed ==> run == (outcomes', State())
      ensures !crashed ==> run == (outcomes' + Iterate(pass, State(), left - 1).0, Iterate(pass, State(), left - 1).1)
    {
      ghost var before := State();
      var o := Step();
      IterateAdvance(pass, before, left, outcomes, run);
      outcomes' := outcomes + [o];
      crashed := o.Crashed?;
    }

    /** Up to `steps` passes; a crash ends the run. */
    method Run(steps: nat) returns (outcomes: seq<Outcome>)
      requires Valid()
      modifies this
      ensures (outcomes, State()) == Passes(Config(), old(State()), steps)
      ensures Valid()
    {
      outcomes := [];
      var crashed := false;
      var k := 0;
      ghost var pass := PassOf(Config());
      ghost var run := Iterate(pass, State(), steps);
      assert [] + run.0 == run.0;
      while k < steps && !crashed
        invariant k <= steps && Valid()
        invariant crashed ==> run == (outcomes, State())
        invariant !crashed ==> run == (outcomes + Iterate(pass, State(), steps - k).0, Iterate(pass, State(), steps - k).1)
        decreases steps - k
      {
        outcomes, crashed := RunPass(pass, run, outcomes, steps - k);
        k := k + 1;
      }
      if !crashed {
        assert outcomes + [] == outcomes;
      }
    }
  }

  /** The lines a run's outcomes printed, in order. */
  function ReportedLines(outcomes: seq<Outcome>): seq<Line>
  {
    if |outcomes| == 0 then []
    else ReportedLines(outcomes[..|outcomes| - 1]) + (if outcomes[|outcomes| - 1].Reported? then [outcomes[|outcomes| - 1].line] else [])
  }

  /** A generator whose every draw is zero requests no filter on each pass:
      the first pass scores the empty label, the second is a duplicate and
      prints nothing. */
  method RepeatedLabel() returns (first: Outcome, second: Outcome)
    ensures first == Reported(Line(3, "", true))
    ensures second == Duplicate("")
  {
    var zero := (i: nat) => Draw(0, Float(0.0, "0.000000"));
    var f := new Fuzzer(Decoded, "abc", zero, (t: Image) => Some(""), (a: string, b: string) => []);
    assert Requested(zero, 0) == 0 && Requested(zero, 1) == 0;
    SampledShape(zero, 0);
    LabelEmpty(Sampled(zero, 0).combo);
    assert ByteLength("abc") == 3 by {
      assert "abc"[..2] == "ab" && "ab"[..1] == "a" && "a"[..0] == "";
    }
    first := f.Step();
    SampledShape(zero, 1);
    LabelEmpty(Sampled(zero, 1).combo);
    second := f.Step();
  }
}
