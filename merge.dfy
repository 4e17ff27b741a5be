/** Frontmatter layering as JavaScript object spread: `{...a, ...b}` keeps
    every key of both, and `b` wins where both define a key. */
module Merge {

  import opened Values

  /** `{...base, ...top}`. */
  function Overlay(base: Frontmatter, top: Frontmatter): (r: Frontmatter)
    ensures r.Keys == base.Keys + top.Keys
    ensures forall k :: k in top ==> r[k] == top[k]
    ensures forall k :: k in base && k !in top ==> r[k] == base[k]
  {
    base + top
  }

  /** `{...layers[0], ..., ...layers[n-1]}`: a left fold of `Overlay`. Every
      key of every layer is present, and the last layer wins outright. */
  function MergeLayers(layers: seq<Frontmatter>): (r: Frontmatter)
    ensures forall j, k :: 0 <= j < |layers| && k in layers[j] ==> k in r
    ensures |layers| > 0 ==> forall k :: k in layers[|layers| - 1] ==> r[k] == layers[|layers| - 1][k]
  {
    if |layers| == 0 then map[]
    else
      var front := layers[..|layers| - 1];
      assert forall j :: 0 <= j < |front| ==> front[j] == layers[j];
      Overlay(MergeLayers(front), layers[|layers| - 1])
  }

  /** A spread of three objects is two successive spreads. */
  lemma MergeLayersThree(d: Frontmatter, c: Frontmatter, s: Frontmatter)
    ensures MergeLayers([d, c, s]) == Overlay(Overlay(d, c), s)
  {
    var layers := [d, c, s];
    assert layers[..2] == [d, c] && [d, c][..1] == [d] && [d][..0] == [];
    assert MergeLayers([d]) == Overlay(MergeLayers([]), d) == d;
  }

  /** The index of the latest layer that defines `k`. */
  function LastDefining(layers: seq<Frontmatter>, k: string): (r: Option<nat>)
    ensures r.Some? ==> r.value < |layers| && k in layers[r.value]
    ensures r.Some? ==> forall j :: r.value < j < |layers| ==> k !in layers[j]
    ensures r.None? ==> forall j :: 0 <= j < |layers| ==> k !in layers[j]
  {
    if |layers| == 0 then None
    else if k in layers[|layers| - 1] then Some(|layers| - 1)
    else LastDefining(layers[..|layers| - 1], k)
  }

  /** Precedence of a merge: a key is present exactly when some layer defines
      it, and its value comes from the latest such layer. */
  lemma {:induction false} MergeLayersPrecedence(layers: seq<Frontmatter>, k: string)
    ensures k in MergeLayers(layers) <==> LastDefining(layers, k).Some?
    ensures k in MergeLayers(layers) ==>
              MergeLayers(layers)[k] == layers[LastDefining(layers, k).value][k]
  {
    if |layers| > 0 {
      var front := layers[..|layers| - 1];
      MergeLayersPrecedence(front, k);
      if k !in layers[|layers| - 1] {
        assert forall j :: 0 <= j < |front| ==> front[j] == layers[j];
      }
    }
  }

  /** Three layers (defaults, source, override): the override's value wins,
      then the source's, then the default's. */
  lemma MergeThreePrecedence(d: Frontmatter, c: Frontmatter, s: Frontmatter, k: string)
    ensures var r := MergeLayers([d, c, s]);
      && (k in r <==> k in d || k in c || k in s)
      && (k in s ==> r[k] == s[k])
      && (k !in s && k in c ==> r[k] == c[k])
      && (k !in s && k !in c && k in d ==> r[k] == d[k])
  {
    var layers := [d, c, s];
    MergeLayersPrecedence(layers, k);
    assert layers[0] == d && layers[1] == c && layers[2] == s;
  }
}
