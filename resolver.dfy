/** The endpoint resolver: a walk over every interface, every interface
    descriptor and every endpoint of the active configuration that keeps
    the last inbound endpoint it sees. */
module Resolver {
  import opened Base
  import opened Usb

  /** The endpoint address and transfer type the read loop is bound to. */
  datatype Binding = Binding(address: u8, transferType: TransferType)

  function BindingOf(e: EndpointDescriptor): Binding {
    Binding(e.address, e.transferType)
  }

  /** The endpoints of a run of interface descriptors, in iteration order. */
  function DescriptorEndpoints(ds: seq<InterfaceDescriptor>): seq<EndpointDescriptor> {
    if ds == [] then [] else DescriptorEndpoints(ds[..|ds| - 1]) + ds[|ds| - 1].endpoints
  }

  /** The endpoints of a run of interfaces, in iteration order. */
  function InterfaceEndpoints(ifs: seq<Interface>): seq<EndpointDescriptor> {
    if ifs == [] then [] else InterfaceEndpoints(ifs[..|ifs| - 1]) + DescriptorEndpoints(ifs[|ifs| - 1].descriptors)
  }

  /** Every endpoint of a configuration in the order the three loops visit them. */
  function Endpoints(config: ConfigDescriptor): seq<EndpointDescriptor> {
    InterfaceEndpoints(config.interfaces)
  }

  /** One step of the scan: an inbound endpoint overwrites what was kept. */
  function Step(kept: Option<Binding>, e: EndpointDescriptor): Option<Binding> {
    if e.direction == In then Some(BindingOf(e)) else kept
  }

  /** The scan of `eps` starting from `kept`. */
  function Scan(kept: Option<Binding>, eps: seq<EndpointDescriptor>): Option<Binding> {
    if eps == [] then kept else Step(Scan(kept, eps[..|eps| - 1]), eps[|eps| - 1])
  }

  /** What the resolver keeps after visiting `eps` from nothing. */
  function LastIn(eps: seq<EndpointDescriptor>): Option<Binding> {
    Scan(None, eps)
  }

  /** Scanning a concatenation is scanning the second part from where the
      first part left off. */
  lemma {:induction false} ScanAppend(kept: Option<Binding>, xs: seq<EndpointDescriptor>, ys: seq<EndpointDescriptor>)
    ensures Scan(kept, xs + ys) == Scan(Scan(kept, xs), ys)
    decreases |ys|
  {
    if ys != [] {
      var zs := xs + ys;
      assert zs[..|zs| - 1] == xs + ys[..|ys| - 1];
      ScanAppend(kept, xs, ys[..|ys| - 1]);
    } else {
      assert xs + ys == xs;
    }
  }

  /** The three nested loops of the resolver, overwriting `inEndpoint` at
      every inbound endpoint. */
  method FindInEndpoint(config: ConfigDescriptor) returns (inEndpoint: Option<Binding>)
    ensures inEndpoint == LastIn(Endpoints(config))
  {
    inEndpoint := None;
    var ifs := config.interfaces;
    var i := 0;
    while i < |ifs|
      invariant 0 <= i <= |ifs|
      invariant inEndpoint == LastIn(InterfaceEndpoints(ifs[..i]))
    {
      var ds := ifs[i].descriptors;
      ghost var atInterface := inEndpoint;
      var j := 0;
      while j < |ds|
        invariant 0 <= j <= |ds|
        invariant inEndpoint == Scan(atInterface, DescriptorEndpoints(ds[..j]))
      {
        var eps := ds[j].endpoints;
        ghost var atDescriptor := inEndpoint;
        var k := 0;
        while k < |eps|
          invariant 0 <= k <= |eps|
          invariant inEndpoint == Scan(atDescriptor, eps[..k])
        {
          if eps[k].direction == In {
            inEndpoint := Some(Binding(eps[k].address, eps[k].transferType));
          }
          assert eps[..k + 1][..k] == eps[..k];
          k := k + 1;
        }
        assert eps[..k] == eps;
        assert ds[..j + 1][..j] == ds[..j];
        ScanAppend(atInterface, DescriptorEndpoints(ds[..j]), eps);
        j := j + 1;
      }
      assert ds[..j] == ds;
      assert ifs[..i + 1][..i] == ifs[..i];
      ScanAppend(None, InterfaceEndpoints(ifs[..i]), DescriptorEndpoints(ds));
      i := i + 1;
    }
    assert ifs[..i] == ifs;
  }

  /** Index `k` holds the last inbound endpoint of `eps`. */
  predicate IsLastIn(eps: seq<EndpointDescriptor>, k: int) {
    0 <= k < |eps| && eps[k].direction == In
    && forall m :: k < m < |eps| ==> eps[m].direction == Out
  }

  /** The resolver keeps the endpoint at index `k` when it is inbound and
      every endpoint after it is outbound. */
  lemma {:induction false} LastInIsLast(eps: seq<EndpointDescriptor>, k: nat)
    requires IsLastIn(eps, k)
    ensures LastIn(eps) == Some(BindingOf(eps[k]))
    decreases |eps|
  {
    if k < |eps| - 1 {
      LastInIsLast(eps[..|eps| - 1], k);
    }
  }

  /** The resolver finds nothing exactly when no endpoint is inbound. */
  lemma {:induction false} LastInNone(eps: seq<EndpointDescriptor>)
    ensures LastIn(eps) == None <==> forall m :: 0 <= m < |eps| ==> eps[m].direction == Out
    decreases |eps|
  {
    if eps != [] {
      LastInNone(eps[..|eps| - 1]);
      assert forall m :: 0 <= m < |eps| - 1 ==> eps[..|eps| - 1][m] == eps[m];
    }
  }

  /** Whatever the resolver keeps comes from an inbound endpoint after which
      only outbound endpoints follow. */
  lemma {:induction false} LastInFound(eps: seq<EndpointDescriptor>)
    requires LastIn(eps).Some?
    ensures exists k :: IsLastIn(eps, k) && LastIn(eps) == Some(BindingOf(eps[k]))
    decreases |eps|
  {
    var last := |eps| - 1;
    if eps[last].direction == In {
      assert IsLastIn(eps, last);
    } else {
      var init := eps[..last];
      LastInFound(init);
      var k :| IsLastIn(init, k) && LastIn(init) == Some(BindingOf(init[k]));
      assert eps[k] == init[k];
      assert IsLastIn(eps, k) by {
        forall m | k < m < |eps| ensures eps[m].direction == Out {
          if m < last { assert eps[m] == init[m]; }
        }
      }
    }
  }

  /** The inbound endpoints of `eps`, in order. */
  function Inbound(eps: seq<EndpointDescriptor>): (r: seq<EndpointDescriptor>)
    ensures forall m :: 0 <= m < |r| ==> r[m].direction == In
  {
    if eps == [] then []
    else if eps[|eps| - 1].direction == In then Inbound(eps[..|eps| - 1]) + [eps[|eps| - 1]]
    else Inbound(eps[..|eps| - 1])
  }

  /** Outbound endpoints never affect the result: the scan sees the same as
      a scan of the inbound endpoints alone. */
  lemma {:induction false} OutboundIgnored(kept: Option<Binding>, eps: seq<EndpointDescriptor>)
    ensures Scan(kept, eps) == Scan(kept, Inbound(eps))
    decreases |eps|
  {
    if eps != [] {
      var init := eps[..|eps| - 1];
      OutboundIgnored(kept, init);
      if eps[|eps| - 1].direction == In {
        var r := Inbound(init) + [eps[|eps| - 1]];
        assert r[..|r| - 1] == Inbound(init);
      }
    }
  }
}
