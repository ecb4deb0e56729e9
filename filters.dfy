/** The filter catalogue of the fuzzer: the nine filter names, the filters
    with the parameters sampled for them, and what each does to the image.
    The pixel filters themselves are library calls; the image is kept
    symbolic, as the original with the list of library calls applied to it. */
module Filters {
  import opened Random
  import opened Text

  /** The catalogue, in the order its indices are drawn. */
  const Names: seq<string> :=
    ["blend", "blur", "channel", "contrast", "gamma", "greyscale", "levels", "pixelate", "sharpen"]

  /** One selected filter with the parameters sampled for it. */
  datatype Spec =
    | Blend(amount: Float)
    | Blur(radius: nat)
    | Channel
    | Contrast(factor: Float)
    | Gamma
    | Greyscale
    | Levels
    | Pixelate
    | Sharpen(radius: nat, strength: Float)

  function Name(s: Spec): string
  {
    match s
    case Blend(_) => "blend"
    case Blur(_) => "blur"
    case Channel => "channel"
    case Contrast(_) => "contrast"
    case Gamma => "gamma"
    case Greyscale => "greyscale"
    case Levels => "levels"
    case Pixelate => "pixelate"
    case Sharpen(_, _) => "sharpen"
  }

  /** The parameter texts the label carries for a filter, each after a `!`. */
  function Params(s: Spec): seq<string>
  {
    match s
    case Blend(x) => [x.text]
    case Blur(r) => [Decimal(r)]
    case Contrast(x) => [x.text]
    case Sharpen(r, x) => [Decimal(r), x.text]
    case _ => []
  }

  /** How many parameters each catalogue entry samples. */
  function ParamCount(name: string): nat
  {
    if name == "sharpen" then 2
    else if name == "blend" || name == "blur" || name == "contrast" then 1
    else 0
  }

  /** The ranges the sampler draws parameters from. */
  ghost predicate WellFormed(s: Spec)
  {
    match s
    case Blend(x) => WellFormedFloat(x)
    case Blur(r) => 1 <= r <= 4
    case Contrast(x) => WellFormedFloat(x)
    case Sharpen(r, x) => 1 <= r <= 4 && WellFormedFloat(x)
    case _ => true
  }

  /** Samples the parameters of catalogue entry `id` from the draws at `pos`,
      as the `switch filterName` does; returns the filter and the next draw
      to read. */
  function Parametrize(id: nat, rng: Rng, pos: nat): (r: (Spec, nat))
    requires id < |Names|
    ensures Name(r.0) == Names[id]
    ensures |Params(r.0)| == ParamCount(Names[id])
    ensures r.1 == pos + |Params(r.0)|
    ensures WellFormedRng(rng) ==> WellFormed(r.0)
  {
    match id
    case 0 => (Blend(rng(pos).x), pos + 1)
    case 1 => (Blur(Intn(rng(pos), 4) + 1), pos + 1)
    case 2 => (Channel, pos)
    case 3 => (Contrast(rng(pos).x), pos + 1)
    case 4 => (Gamma, pos)
    case 5 => (Greyscale, pos)
    case 6 => (Levels, pos)
    case 7 => (Pixelate, pos)
    case 8 => (Sharpen(Intn(rng(pos), 4) + 1, rng(pos + 1).x), pos + 2)
  }

  /** The library calls the filters make, with their arguments. */
  datatype PixelOp =
    | Fade(amount: real)
    | BoxBlur(radius: nat)
    | LinearContrast(factor: real)
    | AutoGamma
    | MaximalGreyscale
    | PixelateFitted(width: nat, height: nat)
    | SharpenBy(radius: nat, strength: real)

  /** An image: the decoded input, or a library call applied to an image. */
  datatype Image = Decoded | Processed(op: PixelOp, input: Image)

  /** What one selected filter does to the image; channel and levels do nothing. */
  function Transform(s: Spec, t: Image): Image
  {
    match s
    case Blend(x) => Processed(Fade(x.value), t)
    case Blur(r) => Processed(BoxBlur(r), t)
    case Channel => t
    case Contrast(x) => Processed(LinearContrast(x.value), t)
    case Gamma => Processed(AutoGamma, t)
    case Greyscale => Processed(MaximalGreyscale, t)
    case Levels => t
    case Pixelate => Processed(PixelateFitted(2, 1), t)
    case Sharpen(r, x) => Processed(SharpenBy(r, x.value), t)
  }

  /** The filters applied in order to `t`, each to the previous one's result. */
  function Apply(combo: seq<Spec>, t: Image): Image
  {
    if |combo| == 0 then t else Transform(combo[|combo| - 1], Apply(combo[..|combo| - 1], t))
  }

  /** Applying a longer combination applies its extra filters to the shorter one's result. */
  lemma {:induction false} ApplyConcat(c1: seq<Spec>, c2: seq<Spec>, t: Image)
    ensures Apply(c1 + c2, t) == Apply(c2, Apply(c1, t))
    decreases |c2|
  {
    if |c2| == 0 {
      assert c1 + c2 == c1;
    } else {
      assert (c1 + c2)[..|c1 + c2| - 1] == c1 + c2[..|c2| - 1];
      ApplyConcat(c1, c2[..|c2| - 1], t);
    }
  }
}
