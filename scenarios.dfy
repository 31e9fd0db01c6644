/** Concrete event scenarios: the POSTs the handlers send for specific services. */
module Scenarios {
  import opened PortDelta
  import opened Forwarder
  import opened Decimal

  /** `%d` renderings of the node ports used in the scenarios below. */
  lemma FormatExamples()
    ensures FormatInt(30080) == "30080"
    ensures FormatInt(30081) == "30081"
    ensures FormatInt(30090) == "30090"
    ensures FormatInt(30443) == "30443"
  {
    assert FormatNat(3) == "3";
    assert FormatNat(30) == "30";
    assert FormatNat(300) == "300";
    assert FormatNat(304) == "304";
    assert FormatNat(3008) == "3008";
    assert FormatNat(3009) == "3009";
    assert FormatNat(3044) == "3044";
  }

  /** The expose POST for node port `p`. */
  lemma ExposePost(p: Int32)
    ensures PostFor(Expose(p)) == Post(ExposeEndpoint, ExposeBody(ExposeRequest(":" + FormatInt(p), VmVirtualIP + ":" + FormatInt(p))))
    ensures Url(PostFor(Expose(p)).endpoint) == "http://host/services/forwarder/expose"
  {
    assert "" + ":" == ":";
  }

  /** The unexpose POST for node port `p`. */
  lemma UnexposePost(p: Int32)
    ensures PostFor(Unexpose(p)) == Post(UnexposeEndpoint, UnexposeBody(UnexposeRequest(":" + FormatInt(p))))
    ensures Url(PostFor(Unexpose(p)).endpoint) == "http://host/services/forwarder/unexpose"
  {
    assert "" + ":" == ":";
  }

  /**
   * Adding a NodePort service with ports p and q (30080 and 30443, say) POSTs
   * two expose requests, for p and then for q.
   */
  lemma AddNodePortService(p: Int32, q: Int32)
    ensures PostsFor(Actions(Added(Service("NodePort", [ServicePort(p), ServicePort(q)])))) == [
      Post(ExposeEndpoint, ExposeBody(ExposeRequest(":" + FormatInt(p), VmVirtualIP + ":" + FormatInt(p)))),
      Post(ExposeEndpoint, ExposeBody(ExposeRequest(":" + FormatInt(q), VmVirtualIP + ":" + FormatInt(q))))]
  {
    var s := Service("NodePort", [ServicePort(p), ServicePort(q)]);
    assert Actions(Added(s)) == [Expose(p), Expose(q)] by {
      assert IsNodePort(s);
      assert ExposeAll(s.ports) == [Expose(p), Expose(q)];
    }
    ExposePost(p);
    ExposePost(q);
  }

  /**
   * Moving a NodePort service from port p to port q (30080 to 30081, say)
   * unexposes p and then exposes q.
   */
  lemma ChangeNodePort(p: Int32, q: Int32)
    ensures PostsFor(Actions(Updated(Service("NodePort", [ServicePort(p)]), Service("NodePort", [ServicePort(q)])))) == [
      Post(UnexposeEndpoint, UnexposeBody(UnexposeRequest(":" + FormatInt(p)))),
      Post(ExposeEndpoint, ExposeBody(ExposeRequest(":" + FormatInt(q), VmVirtualIP + ":" + FormatInt(q))))]
  {
    var o, n := Service("NodePort", [ServicePort(p)]), Service("NodePort", [ServicePort(q)]);
    assert Actions(Updated(o, n)) == [Unexpose(p), Expose(q)] by {
      assert Branch(o, n) == StayedNodePort;
      assert UnexposeAll(o.ports) == [Unexpose(p)];
      assert ExposeAll(n.ports) == [Expose(q)];
    }
    UnexposePost(p);
    ExposePost(q);
  }

  /** Turning a ClusterIP service into a NodePort service on port p (30090, say) only exposes p. */
  lemma ClusterIPBecomesNodePort(p: Int32)
    ensures PostsFor(Actions(Updated(Service("ClusterIP", []), Service("NodePort", [ServicePort(p)])))) == [
      Post(ExposeEndpoint, ExposeBody(ExposeRequest(":" + FormatInt(p), VmVirtualIP + ":" + FormatInt(p))))]
  {
    var o, n := Service("ClusterIP", []), Service("NodePort", [ServicePort(p)]);
    assert Actions(Updated(o, n)) == [Expose(p)] by {
      assert Branch(o, n) == BecameNodePort;
      assert ExposeAll(n.ports) == [Expose(p)];
    }
    ExposePost(p);
  }

  /** Deleting a ClusterIP service sends nothing, whatever its ports. */
  lemma DeleteClusterIPService(s: Service)
    requires s.serviceType == "ClusterIP"
    ensures PostsFor(Actions(Deleted(s))) == []
  {
  }

  // The scenarios below with their node ports written out. Each is proved for a
  // port variable equal to the literal first, which keeps the solver from
  // evaluating `%d` on literals.

  /** `Scenarios.FormatExamples`, for a port variable. */
  lemma Renders(p: Int32, text: string)
    requires (p == 30080 && text == "30080") || (p == 30081 && text == "30081")
          || (p == 30090 && text == "30090") || (p == 30443 && text == "30443")
    ensures FormatInt(p) == text
  {
    FormatExamples();
  }

  lemma AddNodePortServiceExampleAt(p: Int32, q: Int32)
    requires p == 30080 && q == 30443
    ensures PostsFor(Actions(Added(Service("NodePort", [ServicePort(p), ServicePort(q)])))) == [
      Post(ExposeEndpoint, ExposeBody(ExposeRequest(":30080", "192.168.127.2:30080"))),
      Post(ExposeEndpoint, ExposeBody(ExposeRequest(":30443", "192.168.127.2:30443")))]
  {
    assert ":" + FormatInt(p) == ":30080" by { Renders(p, "30080"); }
    assert VmVirtualIP + ":" + FormatInt(p) == "192.168.127.2:30080" by {
      Renders(p, "30080");
      assert VmVirtualIP + ":" + "30080" == "192.168.127.2:30080";
    }
    assert ":" + FormatInt(q) == ":30443" by { Renders(q, "30443"); }
    assert VmVirtualIP + ":" + FormatInt(q) == "192.168.127.2:30443" by { Renders(q, "30443"); }
    AddNodePortService(p, q);
  }

  /** Adding a NodePort service with node ports 30080 and 30443 sends these two expose bodies. */
  lemma AddNodePortServiceExample()
    ensures PostsFor(Actions(Added(Service("NodePort", [ServicePort(30080), ServicePort(30443)])))) == [
      Post(ExposeEndpoint, ExposeBody(ExposeRequest(":30080", "192.168.127.2:30080"))),
      Post(ExposeEndpoint, ExposeBody(ExposeRequest(":30443", "192.168.127.2:30443")))]
  {
    AddNodePortServiceExampleAt(30080, 30443);
  }

  lemma ChangeNodePortExampleAt(p: Int32, q: Int32)
    requires p == 30080 && q == 30081
    ensures PostsFor(Actions(Updated(Service("NodePort", [ServicePort(p)]), Service("NodePort", [ServicePort(q)])))) == [
      Post(UnexposeEndpoint, UnexposeBody(UnexposeRequest(":30080"))),
      Post(ExposeEndpoint, ExposeBody(ExposeRequest(":30081", "192.168.127.2:30081")))]
  {
    assert ":" + FormatInt(p) == ":30080" by { Renders(p, "30080"); }
    assert ":" + FormatInt(q) == ":30081" by { Renders(q, "30081"); }
    assert VmVirtualIP + ":" + FormatInt(q) == "192.168.127.2:30081" by { Renders(q, "30081"); }
    ChangeNodePort(p, q);
  }

  /** Moving a NodePort service from node port 30080 to 30081 sends this unexpose body, then this expose body. */
  lemma ChangeNodePortExample()
    ensures PostsFor(Actions(Updated(Service("NodePort", [ServicePort(30080)]), Service("NodePort", [ServicePort(30081)])))) == [
      Post(UnexposeEndpoint, UnexposeBody(UnexposeRequest(":30080"))),
      Post(ExposeEndpoint, ExposeBody(ExposeRequest(":30081", "192.168.127.2:30081")))]
  {
    ChangeNodePortExampleAt(30080, 30081);
  }

  lemma ClusterIPBecomesNodePortExampleAt(p: Int32)
    requires p == 30090
    ensures PostsFor(Actions(Updated(Service("ClusterIP", []), Service("NodePort", [ServicePort(p)])))) == [
      Post(ExposeEndpoint, ExposeBody(ExposeRequest(":30090", "192.168.127.2:30090")))]
  {
    assert ":" + FormatInt(p) == ":30090" by { Renders(p, "30090"); }
    assert VmVirtualIP + ":" + FormatInt(p) == "192.168.127.2:30090" by { Renders(p, "30090"); }
    ClusterIPBecomesNodePort(p);
  }

  /** A ClusterIP service with no ports becoming a NodePort service on node port 30090 sends this expose body. */
  lemma ClusterIPBecomesNodePortExample()
    ensures PostsFor(Actions(Updated(Service("ClusterIP", []), Service("NodePort", [ServicePort(30090)])))) == [
      Post(ExposeEndpoint, ExposeBody(ExposeRequest(":30090", "192.168.127.2:30090")))]
  {
    ClusterIPBecomesNodePortExampleAt(30090);
  }
}
