/** Selection of the true channels among the clusters found at the loose cutoff:
    a cluster is a channel when its dimensionality string is non-empty. */
module ChannelFilter {

  /** Cluster labels are stored in `uint8_t` buffers; label 0 means "no cluster". */
  type Label = x: int | 0 <= x < 256

  /** A dimensionality string names the periodic axes a cluster spans; empty means none. */
  predicate Spans(dimensionality: string) {
    dimensionality != ""
  }

  /** The labels `l + 1` of the clusters `l` of `dims` that span some axis, in index order. */
  function Channels(dims: seq<string>): seq<Label>
    requires |dims| <= 255
  {
    if dims == [] then []
    else Channels(dims[..|dims| - 1]) + (if Spans(dims[|dims| - 1]) then [|dims|] else [])
  }

  /** The channels are exactly the 1-based labels of spanning clusters, strictly increasing. */
  lemma {:induction false} ChannelsExactly(dims: seq<string>)
    requires |dims| <= 255
    ensures forall c: int :: c in Channels(dims) <==> 1 <= c <= |dims| && Spans(dims[c - 1])
    ensures forall i, j :: 0 <= i < j < |Channels(dims)| ==> Channels(dims)[i] < Channels(dims)[j]
  {
    if dims != [] {
      var init := dims[..|dims| - 1];
      ChannelsExactly(init);
      assert forall k :: 0 <= k < |init| ==> init[k] == dims[k];
      forall i | 0 <= i < |Channels(init)|
        ensures Channels(init)[i] <= |init|
      {
        assert Channels(init)[i] in Channels(init);
      }
    }
  }

  /** Loop over the cluster indices with an 8-bit counter; it stops only when the counter
      reaches the cluster count, hence at most 255 clusters. */
  method FilterChannels(dims: seq<string>) returns (channels: seq<Label>)
    requires |dims| <= 255
    ensures channels == Channels(dims)
  {
    channels := [];
    var index: Label := 0;
    while index != |dims|
      invariant 0 <= index <= |dims|
      invariant channels == Channels(dims[..index])
    {
      assert dims[..index + 1][..index] == dims[..index];
      if Spans(dims[index]) {
        channels := channels + [index + 1];
      }
      index := index + 1;
    }
    assert dims[..|dims|] == dims;
  }
}
