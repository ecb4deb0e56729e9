/** Scoring one OCR result against the reference text. The diff library is
    not modelled; its output, a sequence of spans each deleted from the OCR
    text, inserted from the reference or kept equal, is an input here. */
module Scoring {
  import opened Text

  /** The diff library's span kinds (`-1`, `1` and `0` in the source). */
  datatype Operation = Delete | Insert | Equal

  datatype Diff = Diff(op: Operation, text: string)

  /** The bytes of the `Delete` spans: the error count of a non-empty OCR text. */
  function DeletedBytes(ds: seq<Diff>): nat
  {
    if |ds| == 0 then 0
    else DeletedBytes(ds[..|ds| - 1]) + (if ds[|ds| - 1].op == Delete then ByteLength(ds[|ds| - 1].text) else 0)
  }

  function InsertedBytes(ds: seq<Diff>): nat
  {
    if |ds| == 0 then 0
    else InsertedBytes(ds[..|ds| - 1]) + (if ds[|ds| - 1].op == Insert then ByteLength(ds[|ds| - 1].text) else 0)
  }

  function EqualBytes(ds: seq<Diff>): nat
  {
    if |ds| == 0 then 0
    else EqualBytes(ds[..|ds| - 1]) + (if ds[|ds| - 1].op == Equal then ByteLength(ds[|ds| - 1].text) else 0)
  }

  /** The text a diff turns into the other: its `Delete` and `Equal` spans. */
  function Source(ds: seq<Diff>): string
  {
    if |ds| == 0 then ""
    else Source(ds[..|ds| - 1]) + (if ds[|ds| - 1].op != Insert then ds[|ds| - 1].text else "")
  }

  /** The text a diff turns the other into: its `Insert` and `Equal` spans. */
  function Target(ds: seq<Diff>): string
  {
    if |ds| == 0 then ""
    else Target(ds[..|ds| - 1]) + (if ds[|ds| - 1].op != Delete then ds[|ds| - 1].text else "")
  }

  /** `ds` is a diff from `a` to `b`, which is all the model takes of
      the library's `DiffMain(a, b)`. */
  predicate IsDiffOf(ds: seq<Diff>, a: string, b: string)
  {
    Source(ds) == a && Target(ds) == b
  }

  /** The error count of one OCR result: every reference byte when the OCR
      read nothing, otherwise the bytes of the OCR text the diff deletes. */
  function ErrorCount(text: string, perfect: string, ds: seq<Diff>): nat
  {
    if text == "" then ByteLength(perfect) else DeletedBytes(ds)
  }

  /** The source's counting loop over the diff. */
  method CountErrors(text: string, perfect: string, ds: seq<Diff>) returns (errorCount: nat)
    ensures errorCount == ErrorCount(text, perfect, ds)
  {
    errorCount := 0;
    if text == "" {
      errorCount := ByteLength(perfect);
    } else {
      for i := 0 to |ds|
        invariant errorCount == DeletedBytes(ds[..i])
      {
        assert ds[..i + 1][..i] == ds[..i];
        if ds[i].op == Delete {
          errorCount := errorCount + ByteLength(ds[i].text);
        }
      }
      assert ds[..|ds|] == ds;
    }
  }

  /** Every byte of the source text is either deleted or kept. */
  lemma {:induction false} SourceBytes(ds: seq<Diff>)
    ensures DeletedBytes(ds) + EqualBytes(ds) == ByteLength(Source(ds))
  {
    if |ds| > 0 {
      var last := ds[|ds| - 1];
      SourceBytes(ds[..|ds| - 1]);
      ByteLengthConcat(Source(ds[..|ds| - 1]), if last.op != Insert then last.text else "");
    }
  }

  /** Every byte of the target text is either inserted or kept. */
  lemma {:induction false} TargetBytes(ds: seq<Diff>)
    ensures InsertedBytes(ds) + EqualBytes(ds) == ByteLength(Target(ds))
  {
    if |ds| > 0 {
      var last := ds[|ds| - 1];
      TargetBytes(ds[..|ds| - 1]);
      ByteLengthConcat(Target(ds[..|ds| - 1]), if last.op != Delete then last.text else "");
    }
  }

  /** For a diff from the OCR text to the reference, the error count is at
      most the OCR text's length and at least by how much it is longer than
      the reference. */
  lemma ScoreBounds(text: string, perfect: string, ds: seq<Diff>)
    requires text != ""
    requires IsDiffOf(ds, text, perfect)
    ensures ErrorCount(text, perfect, ds) <= ByteLength(text)
    ensures ByteLength(text) - ByteLength(perfect) <= ErrorCount(text, perfect, ds)
  {
    SourceBytes(ds);
    TargetBytes(ds);
  }

  /** Any diff from the empty text deletes nothing, so without its special
      case an unreadable image would score a perfect 0; with it, it scores
      the reference's full length. */
  lemma EmptyTextScoresReference(perfect: string, ds: seq<Diff>)
    requires IsDiffOf(ds, "", perfect)
    ensures DeletedBytes(ds) == 0
    ensures ErrorCount("", perfect, ds) == ByteLength(perfect)
  {
    SourceBytes(ds);
  }

  /** A character in the 7-bit range takes one byte. */
  predicate IsAscii(s: string)
  {
    forall i :: 0 <= i < |s| ==> s[i] as int < 0x80
  }

  lemma {:induction false} AsciiByteLength(s: string)
    requires IsAscii(s)
    ensures ByteLength(s) == |s|
  {
    if |s| > 0 {
      AsciiByteLength(s[..|s| - 1]);
    }
  }

  /** A diff that keeps `p`, inserts `x` and keeps `q` deletes nothing. */
  lemma KeepInsertKeep(p: string, x: string, q: string)
    ensures Source([Diff(Equal, p), Diff(Insert, x), Diff(Equal, q)]) == p + q
    ensures Target([Diff(Equal, p), Diff(Insert, x), Diff(Equal, q)]) == p + x + q
    ensures DeletedBytes([Diff(Equal, p), Diff(Insert, x), Diff(Equal, q)]) == 0
  {
    var d1 := [Diff(Equal, p)];
    var d2 := d1 + [Diff(Insert, x)];
    var d3 := d2 + [Diff(Equal, q)];
    assert d1[..0] == [] && d2[..1] == d1 && d3[..2] == d2;
    assert d1[|d1| - 1].op != Delete;
    assert DeletedBytes(d1) == DeletedBytes(d1[..0]) == 0;
    assert Source(d1) == p && Target(d1) == p;
    assert Source(d2) == p && Target(d2) == p + x && DeletedBytes(d2) == 0;
    assert d3 == [Diff(Equal, p), Diff(Insert, x), Diff(Equal, q)];
  }

  /** The count is not symmetric: a character the OCR text lacks is an
      insertion and costs nothing, while an extra one is a deletion. */
  lemma MissingCharacterIsFree()
    ensures IsDiffOf([Diff(Equal, "Hello W"), Diff(Insert, "o"), Diff(Equal, "rld")], "Hello Wrld", "Hello World")
    ensures ErrorCount("Hello Wrld", "Hello World", [Diff(Equal, "Hello W"), Diff(Insert, "o"), Diff(Equal, "rld")]) == 0
  {
    KeepInsertKeep("Hello W", "o", "rld");
    assert "Hello W" + "rld" == "Hello Wrld";
    assert "Hello W" + "o" + "rld" == "Hello World";
  }

  lemma ExtraCharacterCosts()
    ensures forall ds :: IsDiffOf(ds, "Hello World", "Hello Wrld") ==> ErrorCount("Hello World", "Hello Wrld", ds) >= 1
  {
    AsciiByteLength("Hello World");
    AsciiByteLength("Hello Wrld");
    forall ds | IsDiffOf(ds, "Hello World", "Hello Wrld")
      ensures ErrorCount("Hello World", "Hello Wrld", ds) >= 1
    {
      ScoreBounds("Hello World", "Hello Wrld", ds);
    }
  }

  /** A diff that keeps the whole text deletes nothing: a perfect read scores 0. */
  lemma PerfectReadScoresZero(perfect: string)
    ensures IsDiffOf([Diff(Equal, perfect)], perfect, perfect)
    ensures ErrorCount(perfect, perfect, [Diff(Equal, perfect)]) == 0
  {
    var ds := [Diff(Equal, perfect)];
    assert ds[..0] == [];
    assert DeletedBytes(ds) == DeletedBytes([]) + 0 == 0;
    assert Source(ds) == "" + perfect == perfect;
    assert Target(ds) == "" + perfect == perfect;
  }
}
