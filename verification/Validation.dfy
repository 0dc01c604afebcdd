/**
 The argument checks of the graph builders: byte ranges, dispatch bindings and resource contracts,
 tensor shapes. Every loop is a method proved against the property it decides.
 */
module Validation {
  import opened Prelude
  import opened Bits
  import opened Model

  // ---- ranges ----

  predicate RangeValid(length: Size, offset: Size, byteCount: Size) {
    byteCount > 0 && offset <= length && byteCount <= length - offset
  }

  /** Whether a contract's range, placed at a binding offset, lies in a buffer of this length. */
  predicate ResourceRangeValid(resource: Resource, bufferLength: Size, bindingOffset: Size) {
    if resource.byteOffset > SIZE_MAX - bindingOffset then false
    else
      var absolute := bindingOffset + resource.byteOffset;
      if resource.byteCount == 0 then absolute <= bufferLength
      else RangeValid(bufferLength, absolute, resource.byteCount)
  }

  /** The contract's alignment; zero means one. */
  function EffectiveAlignment(resource: Resource): (a: Size)
    ensures a > 0
  {
    if resource.alignment == 0 then 1 else resource.alignment
  }

  predicate ResourceOffsetAligned(resource: Resource, bindingOffset: Size) {
    if resource.byteOffset > SIZE_MAX - bindingOffset then false
    else (bindingOffset + resource.byteOffset) % EffectiveAlignment(resource) == 0
  }

  // ---- lookup by index ----

  /** The first contract with this index. */
  function ResourceFor(resources: seq<Resource>, index: nat): (r: Option<Resource>)
    ensures r.Some? ==> r.value in resources && r.value.index == index
    ensures r.None? ==> forall k :: 0 <= k < |resources| ==> resources[k].index != index
  {
    if |resources| == 0 then None
    else if resources[0].index == index then Some(resources[0])
    else ResourceFor(resources[1..], index)
  }

  /** The first binding with this index. */
  function BindingFor(bindings: seq<Binding>, index: nat): (r: Option<nat>)
    ensures r.Some? ==> r.value < |bindings| && bindings[r.value].index == index
    ensures r.Some? ==> forall k :: 0 <= k < r.value ==> bindings[k].index != index
    ensures r.None? ==> forall k :: 0 <= k < |bindings| ==> bindings[k].index != index
  {
    if |bindings| == 0 then None
    else if bindings[0].index == index then Some(0)
    else match BindingFor(bindings[1..], index)
         case Some(k) =>
           assert forall j :: 1 <= j < |bindings| ==> bindings[j] == bindings[1..][j - 1];
           Some(k + 1)
         case None => None
  }

  method FindResource(resources: seq<Resource>, index: nat) returns (r: Option<Resource>)
    ensures r == ResourceFor(resources, index)
  {
    for i := 0 to |resources|
      invariant ResourceFor(resources, index) == ResourceFor(resources[i..], index)
    {
      if resources[i].index == index {
        return Some(resources[i]);
      }
      assert resources[i..][1..] == resources[i + 1..];
    }
    return None;
  }

  method FindBinding(bindings: seq<Binding>, index: nat) returns (r: Option<nat>)
    ensures r == BindingFor(bindings, index)
  {
    for i := 0 to |bindings|
      invariant forall k :: 0 <= k < i ==> bindings[k].index != index
    {
      if bindings[i].index == index {
        return Some(i);
      }
    }
    return None;
  }

  // ---- dispatch ----

  predicate DimsValid(d: Dims) {
    d.x > 0 && d.y > 0 && d.z > 0
  }

  predicate DimsWithin(d: Dims, limit: Dims) {
    d.x <= limit.x && d.y <= limit.y && d.z <= limit.z
  }

  predicate AccessValid(a: Access) {
    !a.OtherAccess?
  }

  predicate BindingsOk(bindings: seq<Binding>) {
    && (forall i :: 0 <= i < |bindings| ==> bindings[i].offset <= bindings[i].buffer.length)
    && (forall i, j :: 0 <= i < j < |bindings| ==> bindings[i].index != bindings[j].index)
  }

  /** A contract is usable, names a binding, and its range fits where that binding puts it. */
  predicate ResourceOk(resource: Resource, bindings: seq<Binding>) {
    && AccessValid(resource.access)
    && AlignmentValid(EffectiveAlignment(resource))
    && var k := BindingFor(bindings, resource.index);
       && k.Some?
       && ResourceOffsetAligned(resource, bindings[k.value].offset)
       && ResourceRangeValid(resource, bindings[k.value].buffer.length, bindings[k.value].offset)
  }

  predicate ResourcesOk(resources: seq<Resource>, bindings: seq<Binding>) {
    && (forall i :: 0 <= i < |resources| ==> ResourceOk(resources[i], bindings))
    && (forall i, j :: 0 <= i < j < |resources| ==> resources[i].index != resources[j].index)
  }

  predicate ScalarsOk(scalars: seq<Scalar>) {
    forall i :: 0 <= i < |scalars| ==> |scalars[i].data| > 0
  }

  predicate DispatchOk(d: DispatchWork) {
    && DimsValid(d.grid) && DimsValid(d.threads) && DimsValid(d.maxGrid)
    && DimsWithin(d.grid, d.maxGrid)
    && BindingsOk(d.buffers)
    && ScalarsOk(d.scalars)
    && ResourcesOk(d.resources, d.buffers)
  }

  /** A binding has a contract with a nonzero byte count. */
  predicate HasRange(resources: seq<Resource>, index: nat) {
    var r := ResourceFor(resources, index);
    r.Some? && r.value.byteCount > 0
  }

  predicate AllBindingsHaveRange(d: DispatchWork) {
    forall i :: 0 <= i < |d.buffers| ==> HasRange(d.resources, d.buffers[i].index)
  }

  method CheckBindings(bindings: seq<Binding>) returns (ok: bool)
    ensures ok <==> BindingsOk(bindings)
  {
    for i := 0 to |bindings|
      invariant forall k :: 0 <= k < i ==> bindings[k].offset <= bindings[k].buffer.length
      invariant forall k, j :: 0 <= k < i && k < j < |bindings| ==> bindings[k].index != bindings[j].index
    {
      if bindings[i].offset > bindings[i].buffer.length {
        return false;
      }
      for j := i + 1 to |bindings|
        invariant forall k :: i < k < j ==> bindings[i].index != bindings[k].index
      {
        if bindings[i].index == bindings[j].index {
          return false;
        }
      }
    }
    return true;
  }

  method CheckScalars(scalars: seq<Scalar>) returns (ok: bool)
    ensures ok <==> ScalarsOk(scalars)
  {
    for i := 0 to |scalars|
      invariant forall k :: 0 <= k < i ==> |scalars[k].data| > 0
    {
      if |scalars[i].data| == 0 {
        return false;
      }
    }
    return true;
  }

  method CheckResource(resource: Resource, bindings: seq<Binding>) returns (ok: bool)
    ensures ok <==> ResourceOk(resource, bindings)
  {
    if !AccessValid(resource.access) || !AlignmentValid(EffectiveAlignment(resource)) {
      return false;
    }
    var k := FindBinding(bindings, resource.index);
    if k.None? {
      return false;
    }
    var binding := bindings[k.value];
    ok := ResourceOffsetAligned(resource, binding.offset)
       && ResourceRangeValid(resource, binding.buffer.length, binding.offset);
  }

  method CheckResources(resources: seq<Resource>, bindings: seq<Binding>) returns (ok: bool)
    ensures ok <==> ResourcesOk(resources, bindings)
  {
    for i := 0 to |resources|
      invariant forall k :: 0 <= k < i ==> ResourceOk(resources[k], bindings)
      invariant forall k, j :: 0 <= k < i && k < j < |resources| ==> resources[k].index != resources[j].index
    {
      for j := i + 1 to |resources|
        invariant forall k :: i < k < j ==> resources[i].index != resources[k].index
      {
        if resources[i].index == resources[j].index {
          return false;
        }
      }
      var valid := CheckResource(resources[i], bindings);
      if !valid {
        return false;
      }
    }
    return true;
  }

  method CheckAllBindingsHaveRange(d: DispatchWork) returns (ok: bool)
    ensures ok <==> AllBindingsHaveRange(d)
  {
    for i := 0 to |d.buffers|
      invariant forall k :: 0 <= k < i ==> HasRange(d.resources, d.buffers[k].index)
    {
      var r := FindResource(d.resources, d.buffers[i].index);
      if r.None? || r.value.byteCount == 0 {
        return false;
      }
    }
    return true;
  }

  // ---- pigeonhole: contracts against bindings ----

  function BindingIndices(bindings: seq<Binding>): set<nat> {
    set i | 0 <= i < |bindings| :: bindings[i].index
  }

  function ResourceIndices(resources: seq<Resource>): set<nat> {
    set i | 0 <= i < |resources| :: resources[i].index
  }

  lemma {:induction false} DistinctBindings(bindings: seq<Binding>)
    requires forall i, j :: 0 <= i < j < |bindings| ==> bindings[i].index != bindings[j].index
    ensures |BindingIndices(bindings)| == |bindings|
  {
    if |bindings| > 0 {
      var n := |bindings| - 1;
      DistinctBindings(bindings[..n]);
      assert BindingIndices(bindings) == BindingIndices(bindings[..n]) + {bindings[n].index} by {
        assert forall i :: 0 <= i < n ==> bindings[..n][i] == bindings[i];
      }
    }
  }

  lemma {:induction false} DistinctResources(resources: seq<Resource>)
    requires forall i, j :: 0 <= i < j < |resources| ==> resources[i].index != resources[j].index
    ensures |ResourceIndices(resources)| == |resources|
  {
    if |resources| > 0 {
      var n := |resources| - 1;
      DistinctResources(resources[..n]);
      assert ResourceIndices(resources) == ResourceIndices(resources[..n]) + {resources[n].index} by {
        assert forall i :: 0 <= i < n ==> resources[..n][i] == resources[i];
      }
    }
  }

  /** Accepted contracts are never more than the bindings. */
  lemma ResourceCountBounded(d: DispatchWork)
    requires DispatchOk(d)
    ensures |d.resources| <= |d.buffers|
    ensures ResourceIndices(d.resources) <= BindingIndices(d.buffers)
  {
    DistinctBindings(d.buffers);
    DistinctResources(d.resources);
    SubsetSize(ResourceIndices(d.resources), BindingIndices(d.buffers));
  }

  lemma ContractOfBinding(d: DispatchWork, i: nat) returns (k: nat)
    requires AllBindingsHaveRange(d) && i < |d.buffers|
    ensures k < |d.resources| && d.resources[k].index == d.buffers[i].index
  {
    assert HasRange(d.resources, d.buffers[i].index);
    var r := ResourceFor(d.resources, d.buffers[i].index).value;
    k :| 0 <= k < |d.resources| && d.resources[k] == r;
  }

  lemma BindingOfContract(d: DispatchWork, k: nat) returns (i: nat)
    requires DispatchOk(d) && k < |d.resources|
    ensures i < |d.buffers| && d.buffers[i].index == d.resources[k].index
  {
    assert ResourceOk(d.resources[k], d.buffers);
    i := BindingFor(d.buffers, d.resources[k].index).value;
  }

  lemma EveryBindingHasContract(d: DispatchWork)
    requires AllBindingsHaveRange(d)
    ensures BindingIndices(d.buffers) <= ResourceIndices(d.resources)
  {
    forall x | x in BindingIndices(d.buffers)
      ensures x in ResourceIndices(d.resources)
    {
      var i :| 0 <= i < |d.buffers| && d.buffers[i].index == x;
      var k := ContractOfBinding(d, i);
    }
  }

  /**
   When every binding has a range, contracts and bindings match one to one: the counts agree, both
   sides have distinct indices, and they are the same indices.
   */
  lemma PatchableContractsAreBijective(d: DispatchWork)
    requires DispatchOk(d) && AllBindingsHaveRange(d)
    ensures |d.resources| == |d.buffers| == |BindingIndices(d.buffers)|
    ensures BindingIndices(d.buffers) == ResourceIndices(d.resources)
  {
    assert BindingIndices(d.buffers) == ResourceIndices(d.resources) by {
      ResourceCountBounded(d);
      EveryBindingHasContract(d);
    }
    DistinctBindings(d.buffers);
    DistinctResources(d.resources);
  }

  lemma ContractIsTheOneFound(d: DispatchWork, k: nat)
    requires DispatchOk(d) && AllBindingsHaveRange(d) && k < |d.resources|
    ensures ResourceFor(d.resources, d.resources[k].index) == Some(d.resources[k])
    ensures d.resources[k].byteCount > 0
  {
    var i := BindingOfContract(d, k);
    assert HasRange(d.resources, d.buffers[i].index);
    var r := ResourceFor(d.resources, d.resources[k].index).value;
    var k' :| 0 <= k' < |d.resources| && d.resources[k'] == r;
  }

  // ---- tensors ----

  function ElementSize(t: DataType): Size {
    if t.Float32? then 4 else 0
  }

  /** The number of elements of a shape, over unbounded integers. */
  function Product(shape: seq<Size>): nat {
    if |shape| == 0 then 1 else Product(shape[..|shape| - 1]) * shape[|shape| - 1]
  }

  predicate ShapeFits(shape: seq<Size>, elementSize: Size) {
    && |shape| > 0 && elementSize > 0
    && (forall i :: 0 <= i < |shape| ==> shape[i] > 0)
    && Product(shape) * elementSize <= SIZE_MAX
  }

  lemma {:induction false} ProductGrows(shape: seq<Size>, i: nat)
    requires i <= |shape| && forall k :: 0 <= k < |shape| ==> shape[k] > 0
    ensures 1 <= Product(shape[..i]) <= Product(shape)
    decreases |shape|
  {
    if i == |shape| {
      assert shape[..i] == shape;
      if i > 0 {
        ProductGrows(shape[..i - 1], i - 1);
        assert shape[..i - 1][..i - 1] == shape[..i - 1];
        TimesGrows(Product(shape[..i - 1]), shape[i - 1]);
      }
    } else {
      var n := |shape| - 1;
      ProductGrows(shape[..n], i);
      assert shape[..n][..i] == shape[..i];
      TimesGrows(Product(shape[..n]), shape[n]);
    }
  }

  lemma TimesGrows(x: nat, k: nat)
    requires k > 0
    ensures x <= x * k
  {
  }

  /** The division guard of the size loops is exact. */
  lemma DivisionGuard(x: nat, k: nat)
    requires k > 0
    ensures x > SIZE_MAX / k <==> x * k > SIZE_MAX
  {
    var q := SIZE_MAX / k;
    assert SIZE_MAX == k * q + SIZE_MAX % k;
    MulMonotone(q + 1, x, k);
    MulMonotone(x, q, k);
  }

  /** Accepts exactly the shapes whose true byte size is a `size_t`, and returns that size. */
  method ShapeByteCount(shape: seq<Size>, elementSize: Size) returns (r: Option<Size>)
    ensures r.Some? <==> ShapeFits(shape, elementSize)
    ensures r.Some? ==> r.value == Product(shape) * elementSize
  {
    if |shape| == 0 || elementSize == 0 {
      return None;
    }
    var elements: Size := 1;
    for i := 0 to |shape|
      invariant forall k :: 0 <= k < i ==> shape[k] > 0
      invariant elements == Product(shape[..i])
    {
      if shape[i] == 0 {
        return None;
      }
      DivisionGuard(elements, shape[i]);
      assert shape[..i + 1][..i] == shape[..i];
      if elements > SIZE_MAX / shape[i] {
        OversizedPrefix(shape, i + 1, elementSize);
        return None;
      }
      elements := elements * shape[i];
    }
    assert shape[..|shape|] == shape;
    DivisionGuard(elements, elementSize);
    if elements > SIZE_MAX / elementSize {
      return None;
    }
    return Some(elements * elementSize);
  }

  lemma OversizedPrefix(shape: seq<Size>, i: nat, elementSize: Size)
    requires i <= |shape| && elementSize > 0 && Product(shape[..i]) > SIZE_MAX
    ensures !ShapeFits(shape, elementSize)
  {
    if forall k :: 0 <= k < |shape| ==> shape[k] > 0 {
      ProductGrows(shape, i);
      TimesGrows(Product(shape), elementSize);
    }
  }

  /** The byte count a stored tensor gets: the requested one, or the exact size of the shape. */
  function ResolvedByteCount(t: Tensor): Size
    requires ShapeFits(t.shape, ElementSize(t.dataType))
  {
    if t.byteCount != 0 then t.byteCount else Product(t.shape) * ElementSize(t.dataType)
  }

  predicate TensorDescOk(t: Tensor) {
    && t.layout.Contiguous?
    && ShapeFits(t.shape, ElementSize(t.dataType))
    && ResolvedByteCount(t) >= Product(t.shape) * ElementSize(t.dataType)
    && t.byteOffset == 0
    && t.buffer.byteOffset == 0
    && RangeValid(t.buffer.length, t.byteOffset, ResolvedByteCount(t))
  }

  function Resolved(t: Tensor): Tensor
    requires TensorDescOk(t)
  {
    t.(byteCount := ResolvedByteCount(t))
  }

  method Resolve(t: Tensor) returns (r: Tensor)
    requires TensorDescOk(t)
    ensures r == Resolved(t)
  {
    var bytes := ShapeByteCount(t.shape, ElementSize(t.dataType));
    r := t.(byteCount := if t.byteCount != 0 then t.byteCount else bytes.value);
  }

  /** What a stored tensor guarantees: every element of its shape lies inside its buffer. */
  predicate TensorOk(t: Tensor) {
    && t.byteOffset == 0 && t.buffer.byteOffset == 0
    && ShapeFits(t.shape, ElementSize(t.dataType))
    && 0 < Product(t.shape) * ElementSize(t.dataType) <= t.byteCount <= t.buffer.length
  }

  lemma AcceptedTensorFits(t: Tensor)
    requires TensorDescOk(t)
    ensures TensorOk(Resolved(t))
  {
    ProductGrows(t.shape, 0);
    assert t.shape[..0] == [];
  }

  method CheckTensor(t: Tensor) returns (ok: bool)
    ensures ok <==> TensorDescOk(t)
  {
    if |t.shape| == 0 || !t.layout.Contiguous? {
      return false;
    }
    var required := ShapeByteCount(t.shape, ElementSize(t.dataType));
    if required.None? {
      return false;
    }
    var byteCount := if t.byteCount != 0 then t.byteCount else required.value;
    ok := !(byteCount < required.value || t.byteOffset != 0 || t.buffer.byteOffset != 0
            || !RangeValid(t.buffer.length, t.byteOffset, byteCount));
  }

  method CheckTensors(tensors: seq<Tensor>) returns (ok: bool)
    ensures ok <==> forall i :: 0 <= i < |tensors| ==> TensorDescOk(tensors[i])
  {
    for i := 0 to |tensors|
      invariant forall k :: 0 <= k < i ==> TensorDescOk(tensors[k])
    {
      var valid := CheckTensor(tensors[i]);
      if !valid {
        return false;
      }
    }
    return true;
  }
}
