/** From the host's tensor over its descriptor to the worker's tensor: the elements stay where they are. */
module SharedTensors {
  import opened Views
  import Layout
  import ViewCache

  /**
   What a worker gets for a view the host described is the same tensor: the same shape and type, and
   at every index the very element the host has there, inside the allocation the view belongs to.
   */
  lemma SameElements(t: Layout.Tensor, start: int, length: int, allocation: nat, byteLength: nat, signed: bool)
    requires |t.shape| == |t.strides| && Layout.Manageable(t, length) && start >= 0
    ensures var v := Layout.ManagedView(t, start);
      var r := ViewCache.Uncached(ViewCache.ViewKey(allocation, v), byteLength, signed);
      r.Viewed? ==>
        && r.tensor.shape == t.shape && r.tensor.dtype == t.dtype && |r.tensor.elementStrides| == |t.shape|
        && forall index | IsIndex(t.shape, index) ::
          var a := ViewCache.ElementAddress(r.tensor, index);
          a == Layout.HostAddress(t, start, index) && start <= a && a + ItemSize(t.dtype) <= start + length
  {
    var v := Layout.ManagedView(t, start);
    var key := ViewCache.ViewKey(allocation, v);
    var r := ViewCache.Uncached(key, byteLength, signed);
    ViewCache.HandedOut(key, byteLength, signed);
    Layout.ManagedDescribes(t, start);
    if r.Viewed? {
      forall index | IsIndex(t.shape, index)
        ensures start <= Address(v, index) && Address(v, index) + ItemSize(t.dtype) <= start + length
      {
        DistanceBounded(v.shape, v.strides, index, |v.shape|);
        Times(0, t.storageOffset, ItemSize(t.dtype));
      }
    }
  }
}
