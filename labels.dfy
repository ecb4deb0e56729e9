/** The label of a combination: the entries of its filters joined by `,`,
    each entry being the filter name followed by its parameters, each after
    a `!`. The label is the key the fuzzer deduplicates on and the text it
    reports, so this module also reads a label back and shows what two
    colliding labels have in common. */
module Labels {
  import opened Random
  import opened Text
  import opened Filters

  function Entry(s: Spec): string
  {
    Join([Name(s)] + Params(s), '!')
  }

  /** The parameter part of an entry: each parameter after a `!`. */
  function ParamSuffix(ps: seq<string>): string
  {
    if |ps| == 0 then "" else "!" + ps[0] + ParamSuffix(ps[1..])
  }

  /** An entry is the name followed by the parameter part. */
  lemma {:induction false} JoinParams(name: string, ps: seq<string>)
    ensures Join([name] + ps, '!') == name + ParamSuffix(ps)
    decreases |ps|
  {
    if |ps| > 0 {
      assert ([name] + ps)[1..] == ps;
      assert ([ps[0]] + ps[1..]) == ps;
      JoinParams(ps[0], ps[1..]);
    }
  }

  function Entries(combo: seq<Spec>): (r: seq<string>)
    ensures |r| == |combo|
  {
    seq(|combo|, i requires 0 <= i < |combo| => Entry(combo[i]))
  }

  function Label(combo: seq<Spec>): string
  {
    Join(Entries(combo), ',')
  }

  /** An entry is never empty: it starts with the filter's name. */
  lemma EntryStartsWithName(s: Spec)
    ensures |Entry(s)| >= |Name(s)| > 0
    ensures Entry(s)[..|Name(s)|] == Name(s)
  {
    var ps := [Name(s)] + Params(s);
    if |ps| > 1 {
      assert ps[0] == Name(s);
    }
  }

  /** The empty combination, and only it, has the empty label. */
  lemma LabelEmpty(combo: seq<Spec>)
    ensures Label(combo) == "" <==> combo == []
  {
    if combo != [] {
      EntryStartsWithName(combo[0]);
      if |combo| > 1 {
        assert Label(combo)[..|Entry(combo[0])|] == Entry(combo[0]);
      }
    }
  }

  /** Appending a filter to the combination extends the label as the sampler's
      `selectedFilters += "," + name` (or `= name` when empty) and `+= "!" + param` do. */
  lemma LabelSnoc(combo: seq<Spec>, s: Spec)
    ensures Label(combo + [s]) == if combo == [] then Entry(s) else Label(combo) + "," + Entry(s)
  {
    assert Entries(combo + [s]) == Entries(combo) + [Entry(s)];
    if combo != [] {
      JoinSnoc(Entries(combo), ',', Entry(s));
    }
  }

  /** The label after the sampler appends `,name` (or `name` on an empty
      label) and then `!param` for each parameter of a new filter. */
  lemma LabelExtend(combo: seq<Spec>, s: Spec)
    ensures Label(combo + [s]) ==
      (if Label(combo) != "" then Label(combo) + "," + Name(s) else Name(s)) + ParamSuffix(Params(s))
  {
    LabelEmpty(combo);
    LabelSnoc(combo, s);
    JoinParams(Name(s), Params(s));
  }

  /** The label as a reader sees it: a filter name and its parameter texts. */
  datatype Token = Token(name: string, params: seq<string>)

  function TokenOf(s: Spec): Token
  {
    Token(Name(s), Params(s))
  }

  function Tokens(combo: seq<Spec>): (r: seq<Token>)
    ensures |r| == |combo|
  {
    seq(|combo|, i requires 0 <= i < |combo| => TokenOf(combo[i]))
  }

  function ParseEntry(e: string): Token
  {
    var parts := Split(e, '!');
    Token(parts[0], parts[1..])
  }

  /** Reads a label back into its filter names and parameter texts. */
  function ParseLabel(text: string): seq<Token>
  {
    if text == "" then []
    else
      var es := Split(text, ',');
      seq(|es|, i requires 0 <= i < |es| => ParseEntry(es[i]))
  }

  lemma JoinAvoids(parts: seq<string>, sep: char, c: char)
    requires c != sep
    requires forall i :: 0 <= i < |parts| ==> c !in parts[i]
    ensures c !in Join(parts, sep)
    decreases |parts|
  {
    if |parts| > 1 {
      JoinAvoids(parts[1..], sep, c);
    }
  }

  /** Neither separator occurs in a name or in a well-formed parameter. */
  lemma PartsPlain(s: Spec)
    requires WellFormed(s)
    ensures forall i :: 0 <= i < |[Name(s)] + Params(s)| ==> ',' !in ([Name(s)] + Params(s))[i] && '!' !in ([Name(s)] + Params(s))[i]
  {
  }

  /** Nor does `;`, the separator of a printed line. */
  lemma PartsAvoidSemicolon(s: Spec)
    requires WellFormed(s)
    ensures forall i :: 0 <= i < |[Name(s)] + Params(s)| ==> ';' !in ([Name(s)] + Params(s))[i]
  {
  }

  /** The label of well-formed filters holds no `;`, so a printed
      `score;label` line has exactly one. */
  lemma LabelAvoidsSemicolon(combo: seq<Spec>)
    requires forall i :: 0 <= i < |combo| ==> WellFormed(combo[i])
    ensures ';' !in Label(combo)
  {
    var es := Entries(combo);
    forall i | 0 <= i < |es| ensures ';' !in es[i] {
      PartsAvoidSemicolon(combo[i]);
      JoinAvoids([Name(combo[i])] + Params(combo[i]), '!', ';');
    }
    JoinAvoids(es, ',', ';');
  }

  lemma EntryRoundTrip(s: Spec)
    requires WellFormed(s)
    ensures ',' !in Entry(s)
    ensures ParseEntry(Entry(s)) == TokenOf(s)
  {
    var ps := [Name(s)] + Params(s);
    PartsPlain(s);
    JoinAvoids(ps, '!', ',');
    SplitJoin(ps, '!');
  }

  /** Reading a label gives back the names and parameter texts of the
      combination it was built from. */
  lemma LabelRoundTrip(combo: seq<Spec>)
    requires forall i :: 0 <= i < |combo| ==> WellFormed(combo[i])
    ensures ParseLabel(Label(combo)) == Tokens(combo)
  {
    LabelEmpty(combo);
    if combo != [] {
      var es := Entries(combo);
      forall i | 0 <= i < |es| ensures ',' !in es[i] && ParseEntry(es[i]) == TokenOf(combo[i]) {
        EntryRoundTrip(combo[i]);
      }
      SplitJoin(es, ',');
    }
  }

  /** A filter as far as its label entry can tell: float parameters are known
      only by their `%f` text. */
  function Visible(s: Spec): Spec
  {
    match s
    case Blend(x) => Blend(Float(0.0, x.text))
    case Contrast(x) => Contrast(Float(0.0, x.text))
    case Sharpen(r, x) => Sharpen(r, Float(0.0, x.text))
    case _ => s
  }

  function Visibles(combo: seq<Spec>): (r: seq<Spec>)
    ensures |r| == |combo|
  {
    seq(|combo|, i requires 0 <= i < |combo| => Visible(combo[i]))
  }

  /** Two filters give the same entry exactly when they are the same filter with
      the same integer parameters and the same float texts. */
  lemma TokenVisible(s: Spec, t: Spec)
    requires WellFormed(s) && WellFormed(t)
    ensures TokenOf(s) == TokenOf(t) <==> Visible(s) == Visible(t)
  {
    if TokenOf(s) == TokenOf(t) {
      match s
      case Blur(r) => {
        assert t.Blur?;
        assert Decimal(r) == Decimal(t.radius);
        DecimalInjective(r, t.radius);
      }
      case Sharpen(r, x) => {
        assert t.Sharpen?;
        assert Decimal(r) == Decimal(t.radius);
        DecimalInjective(r, t.radius);
      }
      case _ =>
    }
  }

  /** Two combinations collide in the deduplication set exactly when they
      select the same filters in the same order with the same integer
      parameters and the same float texts. */
  lemma LabelsCollide(a: seq<Spec>, b: seq<Spec>)
    requires forall i :: 0 <= i < |a| ==> WellFormed(a[i])
    requires forall i :: 0 <= i < |b| ==> WellFormed(b[i])
    ensures Label(a) == Label(b) <==> Visibles(a) == Visibles(b)
  {
    LabelRoundTrip(a);
    LabelRoundTrip(b);
    if Label(a) == Label(b) {
      assert Tokens(a) == Tokens(b);
      forall i | 0 <= i < |a| ensures Visibles(a)[i] == Visibles(b)[i] {
        assert TokenOf(a[i]) == Tokens(a)[i];
        TokenVisible(a[i], b[i]);
      }
    }
    if Visibles(a) == Visibles(b) {
      forall i | 0 <= i < |a| ensures Entries(a)[i] == Entries(b)[i] {
        assert Visible(a[i]) == Visibles(a)[i];
        TokenVisible(a[i], b[i]);
      }
      assert Entries(a) == Entries(b);
    }
  }
}
