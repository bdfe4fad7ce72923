/** `DatasetLoader.encode_labels`: scikit-learn's OneHotEncoder fitted on the
    distinct taxon names, read back as a dictionary from name to indicator
    vector. The encoder's categories are the distinct labels sorted in
    code-point order, so a label's position is the number of labels ordered
    before it. */
module LabelEncoder {
  import opened Results
  import opened Strings
  import opened Frames

  /** The labels of `categories` ordered before `name`. */
  function Before(name: string, categories: set<string>): set<string> {
    set x | x in categories && Less(x, name)
  }

  /** The column of `name` in the encoder's output: its position among the
      sorted categories, which for a category lies inside the vector. */
  function Rank(name: string, categories: set<string>): (r: nat)
    ensures name in categories ==> r < |categories|
  {
    BeforeBelow(name, categories);
    |Before(name, categories)|
  }

  /** The indicator vector of length `k` with its single 1 at position `j`:
      a standard basis vector when `j` is a position of it. */
  function OneHot(k: nat, j: nat): (v: seq<int>)
    ensures |v| == k
    ensures j < k ==> IsBasis(v, j)
  {
    seq(k, i => if i == j then 1 else 0)
  }

  /** `v` is a standard basis vector whose 1 is at position `j`. */
  predicate IsBasis(v: seq<int>, j: int) {
    && 0 <= j < |v|
    && v[j] == 1
    && forall i :: 0 <= i < |v| && i != j ==> v[i] == 0
  }

  /** `encode_labels(labels)`: a ValueError for no labels (the encoder refuses
      an empty sample); otherwise a dictionary whose keys are exactly the
      labels and whose values are indicator vectors with one position per
      distinct label. */
  function EncodeLabels(labels: seq<string>): (r: Result<map<string, seq<int>>, Error>)
    ensures r.Ok? <==> labels != []
    ensures r.Ok? ==> r.value.Keys == ColumnSet(labels)
    ensures r.Ok? ==> forall l :: l in r.value ==> |r.value[l]| == |ColumnSet(labels)|
  {
    if labels == [] then Err(ValueError)
    else
      var categories := ColumnSet(labels);
      Ok(map l | l in categories :: OneHot(|categories|, Rank(l, categories)))
  }

  /** A label is never ordered before itself, so fewer categories than there
      are come before a category. */
  lemma BeforeBelow(name: string, categories: set<string>)
    ensures name in categories ==> |Before(name, categories)| < |categories|
  {
    if name in categories {
      BeforeBelowMember(name, categories);
    }
  }

  lemma BeforeBelowMember(name: string, categories: set<string>)
    requires name in categories
    ensures |Before(name, categories)| < |categories|
  {
    LessIrreflexive(name);
    var b := Before(name, categories);
    assert b <= categories - {name};
    assert |categories - {name}| == |categories| - 1;
    var rest := (categories - {name}) - b;
    assert |rest| + |b| == |categories - {name}| by {
      assert (categories - {name}) == rest + b;
      assert rest !! b;
    }
  }

  /** Distinct categories have distinct ranks. */
  lemma RankInjective(a: string, b: string, categories: set<string>)
    requires a in categories && b in categories && a != b
    ensures Rank(a, categories) != Rank(b, categories)
  {
    LessTotal(a, b);
    if Less(a, b) {
      RankGrows(a, b, categories);
    } else {
      RankGrows(b, a, categories);
    }
  }

  lemma RankGrows(a: string, b: string, categories: set<string>)
    requires a in categories && Less(a, b)
    ensures Rank(a, categories) < Rank(b, categories)
  {
    var ba, bb := Before(a, categories), Before(b, categories);
    forall x | x in ba ensures x in bb {
      LessTransitive(x, a, b);
    }
    LessIrreflexive(a);
    assert a in bb - ba;
    assert bb == ba + (bb - ba);
    assert |bb| == |ba| + |bb - ba|;
  }

  /** The positions `0 .. k - 1`. */
  function Indices(k: nat): (s: set<int>)
    ensures forall j :: j in s <==> 0 <= j < k
    ensures |s| == k
  {
    if k == 0 then {} else Indices(k - 1) + {k - 1}
  }

  /** The ranks of the labels of `some`. */
  function Ranks(some: set<string>, categories: set<string>): set<int> {
    set l | l in some :: Rank(l, categories)
  }

  lemma {:induction false} RanksSize(some: set<string>, categories: set<string>)
    requires some <= categories
    ensures |Ranks(some, categories)| == |some|
    decreases |some|
  {
    if some != {} {
      var x :| x in some;
      var rest := some - {x};
      RanksSize(rest, categories);
      forall l | l in rest ensures Rank(l, categories) != Rank(x, categories) {
        RankInjective(l, x, categories);
      }
      assert Ranks(some, categories) == Ranks(rest, categories) + {Rank(x, categories)};
    }
  }

  /** The ranks of the categories are exactly `0 .. k - 1`: the encoding has
      no holes. */
  lemma RanksDense(categories: set<string>)
    ensures Ranks(categories, categories) == Indices(|categories|)
  {
    var ranks := Ranks(categories, categories);
    var all := Indices(|categories|);
    forall j | j in ranks ensures j in all {
      var l :| l in categories && Rank(l, categories) == j;
    }
    RanksSize(categories, categories);
    SubsetOfSameSize(ranks, all);
  }

  lemma SubsetOfSameSize(a: set<int>, b: set<int>)
    requires a <= b && |a| == |b|
    ensures a == b
  {
    var missing := b - a;
    assert b == missing + a && missing !! a;
    assert |missing| == 0;
  }

  /** Each label's vector is a standard basis vector. */
  lemma EncodeLabelsBasis(labels: seq<string>, l: string)
    requires EncodeLabels(labels).Ok? && l in EncodeLabels(labels).value
    ensures IsBasis(EncodeLabels(labels).value[l], Rank(l, ColumnSet(labels)))
  {
  }

  /** Distinct labels get distinct vectors. */
  lemma EncodeLabelsInjective(labels: seq<string>, a: string, b: string)
    requires EncodeLabels(labels).Ok?
    requires a in EncodeLabels(labels).value && b in EncodeLabels(labels).value && a != b
    ensures EncodeLabels(labels).value[a] != EncodeLabels(labels).value[b]
  {
    var cats := ColumnSet(labels);
    var m := EncodeLabels(labels).value;
    RankInjective(a, b, cats);
    assert m[a][Rank(a, cats)] == 1 && m[b][Rank(a, cats)] == 0;
  }

  /** The vectors of the labels of a category set: each is a basis vector
      with one position per category, and two labels share a vector exactly
      when they are the same label. */
  lemma OneHotOfRanks(categories: set<string>, a: string, b: string)
    requires a in categories && b in categories
    ensures IsBasis(OneHot(|categories|, Rank(a, categories)), Rank(a, categories))
    ensures |OneHot(|categories|, Rank(a, categories))| == |categories|
    ensures a == b <==> OneHot(|categories|, Rank(a, categories)) == OneHot(|categories|, Rank(b, categories))
  {
    if a != b {
      RankInjective(a, b, categories);
      assert OneHot(|categories|, Rank(b, categories))[Rank(a, categories)] == 0;
    }
  }

  /** Every standard basis vector of length k is the vector of some label. */
  lemma EncodeLabelsDense(labels: seq<string>, j: int)
    requires EncodeLabels(labels).Ok? && 0 <= j < |ColumnSet(labels)|
    ensures exists l :: l in EncodeLabels(labels).value && IsBasis(EncodeLabels(labels).value[l], j)
  {
    var cats := ColumnSet(labels);
    RanksDense(cats);
    assert j in Indices(|cats|);
    var l :| l in cats && Rank(l, cats) == j;
    EncodeLabelsBasis(labels, l);
  }

  /** The mapping depends only on which labels occur, not on their order or
      repetition. */
  lemma EncodeLabelsOrderFree(a: seq<string>, b: seq<string>)
    requires ColumnSet(a) == ColumnSet(b)
    ensures EncodeLabels(a) == EncodeLabels(b)
  {
    assert a == [] <==> b == [] by {
      if a != [] { assert a[0] in ColumnSet(b); }
      if b != [] { assert b[0] in ColumnSet(a); }
    }
  }
}
