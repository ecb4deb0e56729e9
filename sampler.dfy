/** The preprocessing block of one fuzzer iteration: draw how many filters
    to try, draw that many catalogue indices, skip an index already taken
    in this iteration (without drawing again), sample the parameters of each
    new filter, extend the label and filter the image as it goes. */
module Sampler {
  import opened Random
  import opened Text
  import opened Filters
  import opened Labels

  /** The state of the preprocessing block after some passes of its loop:
      the indices taken (the keys of `fm`, in the order taken), the filters
      with their parameters, every index drawn, and the next draw to read. */
  datatype Draft = Draft(ids: seq<nat>, combo: seq<Spec>, drawn: seq<nat>, next: nat)

  /** One pass of the loop. */
  function PickStep(rng: Rng, d: Draft): Draft
  {
    var id := Intn(rng(d.next), |Names|);
    if id in d.ids then Draft(d.ids, d.combo, d.drawn + [id], d.next + 1)
    else
      var picked := Parametrize(id, rng, d.next + 1);
      Draft(d.ids + [id], d.combo + [picked.0], d.drawn + [id], picked.1)
  }

  /** `n` passes of the loop, reading draws from `start` on. */
  function Picks(rng: Rng, start: nat, n: nat): Draft
  {
    if n == 0 then Draft([], [], [], start) else PickStep(rng, Picks(rng, start, n - 1))
  }

  /** The filter count the iteration asks for: `rand.Intn(len(filters))`. */
  function Requested(rng: Rng, pos: nat): nat
  {
    Intn(rng(pos), |Names|)
  }

  /** The whole preprocessing block, starting at draw `pos`. */
  function Sampled(rng: Rng, pos: nat): Draft
  {
    Picks(rng, pos + 1, Requested(rng, pos))
  }

  predicate NoDuplicates(s: seq<nat>)
  {
    forall i, j :: 0 <= i < j < |s| ==> s[i] != s[j]
  }

  /** The draws the parameters of a combination consume. */
  function ParamDraws(combo: seq<Spec>): nat
  {
    if |combo| == 0 then 0 else ParamDraws(combo[..|combo| - 1]) + |Params(combo[|combo| - 1])|
  }

  /** The position of the first occurrence of `x` in `s`. */
  function FirstIndex(s: seq<nat>, x: nat): (i: nat)
    requires x in s
    ensures i < |s| && s[i] == x && x !in s[..i]
  {
    if s[0] == x then 0 else 1 + FirstIndex(s[1..], x)
  }

  lemma {:induction false} FirstIndexSnoc(s: seq<nat>, y: nat, x: nat)
    requires x in s
    ensures FirstIndex(s + [y], x) == FirstIndex(s, x)
  {
    if s[0] != x {
      assert (s + [y])[1..] == s[1..] + [y];
      FirstIndexSnoc(s[1..], y, x);
    }
  }

  lemma FirstIndexNew(s: seq<nat>, x: nat)
    requires x !in s
    ensures FirstIndex(s + [x], x) == |s|
  {
    assert forall k :: 0 <= k < |s| ==> (s + [x])[k] == s[k];
  }

  /** One pass of the loop: the drawn index is recorded; a new index adds one
      filter, named after it, and reads one draw per parameter. */
  lemma PickStepFacts(rng: Rng, d: Draft)
    ensures var e := PickStep(rng, d); var id := Intn(rng(d.next), |Names|);
      && e.drawn == d.drawn + [id]
      && (id in d.ids ==> e.ids == d.ids && e.combo == d.combo && e.next == d.next + 1)
      && (id !in d.ids ==>
            && e.ids == d.ids + [id]
            && |e.combo| == |d.combo| + 1
            && e.combo[..|d.combo|] == d.combo
            && Name(e.combo[|d.combo|]) == Names[id]
            && e.next == d.next + 1 + |Params(e.combo[|d.combo|])|
            && (WellFormedRng(rng) ==> WellFormed(e.combo[|d.combo|])))
  {
    var id := Intn(rng(d.next), |Names|);
    if id !in d.ids {
      var picked := Parametrize(id, rng, d.next + 1);
      assert (d.combo + [picked.0])[..|d.combo|] == d.combo;
    }
  }

  /** The counts after `n` passes of the loop from draw `start`: `n` indices
      drawn, at most one filter per index, and one draw read for each index
      and each parameter. */
  ghost predicate Counted(d: Draft, start: nat, n: nat)
  {
    && |d.drawn| == n
    && |d.ids| == |d.combo| <= n
    && d.next == start + n + ParamDraws(d.combo)
  }

  /** One pass of the loop keeps the counts. */
  lemma PickStepCounted(rng: Rng, d: Draft, start: nat, n: nat)
    requires Counted(d, start, n)
    ensures Counted(PickStep(rng, d), start, n + 1)
  {
    var e := PickStep(rng, d);
    PickStepFacts(rng, d);
    if |e.combo| > |d.combo| {
      assert ParamDraws(e.combo) == ParamDraws(d.combo) + |Params(e.combo[|d.combo|])|;
    }
  }

  /** What `n` passes of the loop select: at most one filter per drawn index,
      one draw read for each index and each parameter. */
  lemma {:induction false} PicksCounts(rng: Rng, start: nat, n: nat)
    ensures Counted(Picks(rng, start, n), start, n)
  {
    if n > 0 {
      PicksCounts(rng, start, n - 1);
      PickStepCounted(rng, Picks(rng, start, n - 1), start, n - 1);
    }
  }

  /** Each catalogue index taken at most once, exactly the indices drawn
      taken, and each filter named as the catalogue names its index. */
  ghost predicate Consistent(d: Draft)
  {
    && |d.ids| == |d.combo|
    && NoDuplicates(d.ids)
    && (forall i :: 0 <= i < |d.ids| ==> d.ids[i] < |Names| && Name(d.combo[i]) == Names[d.ids[i]])
    && (forall x :: x in d.ids <==> x in d.drawn)
  }

  /** One pass of the loop keeps a draft consistent. */
  lemma PickStepConsistent(rng: Rng, d: Draft)
    requires Consistent(d)
    ensures Consistent(PickStep(rng, d))
  {
    var e := PickStep(rng, d);
    PickStepFacts(rng, d);
    var id := Intn(rng(d.next), |Names|);
    forall x ensures x in e.ids <==> x in e.drawn {
      assert x in e.drawn <==> x in d.drawn || x == id;
      if id !in d.ids {
        assert x in e.ids <==> x in d.ids || x == id;
      }
    }
    if id !in d.ids {
      forall i | 0 <= i < |e.ids| ensures e.ids[i] < |Names| && Name(e.combo[i]) == Names[e.ids[i]] {
        if i < |d.ids| {
          assert e.combo[i] == e.combo[..|d.combo|][i];
        }
      }
    }
  }

  /** A pass that draws an index already taken only records the draw. */
  lemma PickStepSkip(rng: Rng, d: Draft)
    requires Intn(rng(d.next), |Names|) in d.ids
    ensures PickStep(rng, d) == Draft(d.ids, d.combo, d.drawn + [Intn(rng(d.next), |Names|)], d.next + 1)
  {
  }

  /** A pass that draws a new index takes it with the parameters sampled after it. */
  lemma PickStepTake(rng: Rng, d: Draft, s: Spec, p: nat)
    requires Intn(rng(d.next), |Names|) !in d.ids
    requires (s, p) == Parametrize(Intn(rng(d.next), |Names|), rng, d.next + 1)
    ensures PickStep(rng, d) ==
      Draft(d.ids + [Intn(rng(d.next), |Names|)], d.combo + [s], d.drawn + [Intn(rng(d.next), |Names|)], p)
  {
  }

  /** The indices in `ids` were first drawn in the order `ids` lists them. */
  ghost predicate InFirstDrawOrder(ids: seq<nat>, drawn: seq<nat>)
  {
    && (forall i :: 0 <= i < |ids| ==> ids[i] in drawn)
    && (forall i, j :: 0 <= i < j < |ids| && ids[i] in drawn && ids[j] in drawn ==>
          FirstIndex(drawn, ids[i]) < FirstIndex(drawn, ids[j]))
  }

  /** Drawing one more index keeps the order; a new one goes last. */
  lemma OrderSnoc(ids: seq<nat>, drawn: seq<nat>, id: nat)
    requires InFirstDrawOrder(ids, drawn)
    requires forall x :: x in ids <==> x in drawn
    ensures id in ids ==> InFirstDrawOrder(ids, drawn + [id])
    ensures id !in ids ==> InFirstDrawOrder(ids + [id], drawn + [id])
  {
    var drawn' := drawn + [id];
    forall x | x in drawn ensures FirstIndex(drawn', x) == FirstIndex(drawn, x) {
      FirstIndexSnoc(drawn, id, x);
    }
    if id !in ids {
      var ids' := ids + [id];
      FirstIndexNew(drawn, id);
      forall i, j | 0 <= i < j < |ids'| && ids'[i] in drawn' && ids'[j] in drawn'
        ensures FirstIndex(drawn', ids'[i]) < FirstIndex(drawn', ids'[j])
      {
        assert ids'[i] == ids[i];
        if j < |ids| {
          assert ids'[j] == ids[j];
        }
      }
    }
  }

  /** One pass of the loop keeps the taken indices in first-draw order. */
  lemma PickStepOrder(rng: Rng, d: Draft)
    requires Consistent(d) && InFirstDrawOrder(d.ids, d.drawn)
    ensures Consistent(PickStep(rng, d)) && InFirstDrawOrder(PickStep(rng, d).ids, PickStep(rng, d).drawn)
  {
    PickStepConsistent(rng, d);
    PickStepFacts(rng, d);
    OrderSnoc(d.ids, d.drawn, Intn(rng(d.next), |Names|));
  }

  /** What `n` passes of the loop select: each catalogue index at most once,
      exactly the indices drawn, each filter named as the catalogue names its
      index, and the filters in the order their indices were first drawn. */
  lemma {:induction false} PicksOrder(rng: Rng, start: nat, n: nat)
    ensures Consistent(Picks(rng, start, n))
    ensures InFirstDrawOrder(Picks(rng, start, n).ids, Picks(rng, start, n).drawn)
  {
    if n > 0 {
      PicksOrder(rng, start, n - 1);
      PickStepOrder(rng, Picks(rng, start, n - 1));
    }
  }

  ghost predicate AllWellFormed(combo: seq<Spec>)
  {
    forall i :: 0 <= i < |combo| ==> WellFormed(combo[i])
  }

  /** One pass of the loop on a well-formed generator adds only a filter
      whose parameters are in the sampled ranges. */
  lemma PickStepWellFormed(rng: Rng, d: Draft)
    requires WellFormedRng(rng)
    requires AllWellFormed(d.combo)
    ensures AllWellFormed(PickStep(rng, d).combo)
  {
    var e := PickStep(rng, d);
    PickStepFacts(rng, d);
    if Intn(rng(d.next), |Names|) !in d.ids {
      forall i | 0 <= i < |e.combo| ensures WellFormed(e.combo[i]) {
        if i < |d.combo| {
          assert e.combo[i] == e.combo[..|d.combo|][i];
        }
      }
    }
  }

  /** Every filter the loop selects has its parameters in the sampled ranges. */
  lemma {:induction false} PicksWellFormed(rng: Rng, start: nat, n: nat)
    requires WellFormedRng(rng)
    ensures AllWellFormed(Picks(rng, start, n).combo)
  {
    if n > 0 {
      PicksWellFormed(rng, start, n - 1);
      PickStepWellFormed(rng, Picks(rng, start, n - 1));
    }
  }

  /** No two filters of the combination share a name. */
  predicate DistinctNames(combo: seq<Spec>)
  {
    forall i, j :: 0 <= i < j < |combo| ==> Name(combo[i]) != Name(combo[j])
  }

  lemma NamesDistinct(i: nat, j: nat)
    requires i < j < |Names|
    ensures Names[i] != Names[j]
  {
    assert Names[i][..2] != Names[j][..2] || Names[i][2..] != Names[j][2..];
  }

  /** What one iteration's preprocessing selects: fewer filters than the
      catalogue holds and no more than the count drawn, each catalogue entry
      at most once, in the order first drawn, and the empty label when the
      count drawn is zero. */
  lemma SampledShape(rng: Rng, pos: nat)
    ensures Requested(rng, pos) < |Names|
    ensures |Sampled(rng, pos).drawn| == Requested(rng, pos)
    ensures |Sampled(rng, pos).combo| <= Requested(rng, pos)
    ensures Consistent(Sampled(rng, pos))
    ensures InFirstDrawOrder(Sampled(rng, pos).ids, Sampled(rng, pos).drawn)
    ensures DistinctNames(Sampled(rng, pos).combo)
    ensures Requested(rng, pos) == 0 ==> Label(Sampled(rng, pos).combo) == ""
    ensures Sampled(rng, pos).next == pos + 1 + Requested(rng, pos) + ParamDraws(Sampled(rng, pos).combo)
  {
    var d := Sampled(rng, pos);
    PicksCounts(rng, pos + 1, Requested(rng, pos));
    PicksOrder(rng, pos + 1, Requested(rng, pos));
    LabelEmpty(d.combo);
    forall i, j | 0 <= i < j < |d.combo| ensures Name(d.combo[i]) != Name(d.combo[j]) {
      if d.ids[i] < d.ids[j] {
        NamesDistinct(d.ids[i], d.ids[j]);
      } else {
        NamesDistinct(d.ids[j], d.ids[i]);
      }
    }
  }

  lemma SuffixOne(p: string)
    ensures ParamSuffix([p]) == "!" + p
  {
    assert [p][1..] == [];
  }

  lemma SuffixTwo(p: string, q: string)
    ensures ParamSuffix([p, q]) == "!" + p + ("!" + q)
  {
    assert [p, q][1..] == [q];
    SuffixOne(q);
  }

  /** The `switch filterName` of the preprocessing block: samples the
      parameters of the filter, appends them to the label after `!`s, and
      filters the image. */
  method SwitchFilter(ghost id: nat, filterName: string, rng: Rng, pos: nat, selected: string, t: Image)
    returns (s: Spec, selected': string, t': Image, next: nat)
    requires id < |Names| && filterName == Names[id]
    ensures (s, next) == Parametrize(id, rng, pos)
    ensures selected' == selected + ParamSuffix(Params(s))
    ensures t' == Transform(s, t)
  {
    next, selected', t' := pos, selected, t;
    if filterName == "blend" {
      var v := rng(next).x;
      next := next + 1;
      selected' := selected' + ("!" + v.text);
      SuffixOne(v.text);
      t' := Processed(Fade(v.value), t');
      s := Blend(v);
    } else if filterName == "blur" {
      var v := Intn(rng(next), 4) + 1;
      next := next + 1;
      selected' := selected' + ("!" + Decimal(v));
      SuffixOne(Decimal(v));
      t' := Processed(BoxBlur(v), t');
      s := Blur(v);
    } else if filterName == "channel" {
      s := Channel;
      assert selected' + "" == selected';
    } else if filterName == "contrast" {
      var v := rng(next).x;
      next := next + 1;
      selected' := selected' + ("!" + v.text);
      SuffixOne(v.text);
      t' := Processed(LinearContrast(v.value), t');
      s := Contrast(v);
    } else if filterName == "gamma" {
      t' := Processed(AutoGamma, t');
      s := Gamma;
    } else if filterName == "greyscale" {
      t' := Processed(MaximalGreyscale, t');
      s := Greyscale;
    } else if filterName == "levels" {
      s := Levels;
    } else if filterName == "pixelate" {
      t' := Processed(PixelateFitted(2, 1), t');
      s := Pixelate;
    } else {
      // the one entry left: sharpen
      var v1 := Intn(rng(next), 4) + 1;
      next := next + 1;
      selected' := selected' + ("!" + Decimal(v1));
      var v2 := rng(next).x;
      next := next + 1;
      selected' := selected' + ("!" + v2.text);
      SuffixTwo(Decimal(v1), v2.text);
      t' := Processed(SharpenBy(v1, v2.value), t');
      s := Sharpen(v1, v2);
    }
  }

  /** A newly drawn filter: the label grows by `,name` (or `name` when it is
      still empty) and the switch adds the parameters and filters the image. */
  method TakeFilter(ghost id: nat, filterName: string, rng: Rng, img: Image, combo: seq<Spec>,
                    selected: string, t: Image, pos: nat)
    returns (s: Spec, selected': string, t': Image, next: nat)
    requires id < |Names| && filterName == Names[id]
    requires selected == Label(combo)
    requires t == Apply(combo, img)
    ensures (s, next) == Parametrize(id, rng, pos)
    ensures selected' == Label(combo + [s])
    ensures t' == Apply(combo + [s], img)
  {
    if selected != "" {
      selected' := selected + "," + filterName;
    } else {
      selected' := filterName;
    }
    s, selected', t', next := SwitchFilter(id, filterName, rng, pos, selected', t);
    LabelExtend(combo, s);
    assert (combo + [s])[..|combo|] == combo;
  }

  /** One pass of the preprocessing loop: draw an index; if `fm` does not
      hold it yet, take it, append `,name` (or `name` first) to the label,
      and sample, label and apply the filter. */
  method SamplePass(rng: Rng, img: Image, ghost ids: seq<nat>, combo: seq<Spec>, ghost drawn: seq<nat>,
                    fm: set<nat>, selected: string, t: Image, next: nat)
    returns (ghost ids': seq<nat>, combo': seq<Spec>, ghost drawn': seq<nat>,
             fm': set<nat>, selected': string, t': Image, next': nat)
    requires fm == set x | x in ids
    requires selected == Label(combo)
    requires t == Apply(combo, img)
    ensures PickStep(rng, Draft(ids, combo, drawn, next)) == Draft(ids', combo', drawn', next')
    ensures fm' == set x | x in ids'
    ensures selected' == Label(combo')
    ensures t' == Apply(combo', img)
  {
    ids', combo', fm', selected', t' := ids, combo, fm, selected, t;
    var filterID := Intn(rng(next), |Names|);
    next' := next + 1;
    drawn' := drawn + [filterID];
    if filterID !in fm {
      fm' := fm + {filterID};
      var s: Spec;
      s, selected', t', next' := TakeFilter(filterID, Names[filterID], rng, img, combo, selected, t, next');
      PickStepTake(rng, Draft(ids, combo, drawn, next), s, next');
      combo' := combo + [s];
      ids' := ids + [filterID];
      assert fm' == set x | x in ids';
    } else {
      PickStepSkip(rng, Draft(ids, combo, drawn, next));
    }
  }

  /** The preprocessing block as the source runs it: `fm` holds the indices
      taken, the label grows by `,name` and `!param`, and `t` is filtered in
      place, starting from `img`. */
  method Sample(rng: Rng, start: nat, img: Image) returns (combo: seq<Spec>, selected: string, t: Image, next: nat)
    ensures combo == Sampled(rng, start).combo && next == Sampled(rng, start).next
    ensures |combo| <= Requested(rng, start) < |Names|
    ensures DistinctNames(combo)
    ensures WellFormedRng(rng) ==> AllWellFormed(combo)
    ensures selected == Label(combo)
    ensures t == Apply(combo, img)
  {
    t := img;
    var fm: set<nat> := {};
    var filterCount := Intn(rng(start), |Names|);
    selected := "";
    combo := [];
    next := start + 1;
    ghost var ids: seq<nat> := [];
    ghost var drawn: seq<nat> := [];
    for i := 0 to filterCount
      invariant Picks(rng, start + 1, i) == Draft(ids, combo, drawn, next)
      invariant fm == set x | x in ids
      invariant selected == Label(combo)
      invariant t == Apply(combo, img)
    {
      ids, combo, drawn, fm, selected, t, next := SamplePass(rng, img, ids, combo, drawn, fm, selected, t, next);
    }
    SampledShape(rng, start);
    if WellFormedRng(rng) {
      PicksWellFormed(rng, start + 1, filterCount);
    }
  }
}
