/** Which tunnel a device is reached through. Tunnels connect, are replaced and clean up after
    themselves in sections of their own. */
module DeviceRoutes {
  import opened Common

  type Device = string
  type Route = nat

  datatype Cloud = Cloud(routes: map<Device, Route>, registry: map<Device, bool>)

  /** The sections of `handleAgentTunnel` and of deleting a device. */
  datatype Section =
    | Register(device: Device)
    | SetRoute(device: Device, route: Route)
    | ClearRoute(device: Device, route: Route)
    | DropRoute(device: Device)
    | MarkOffline(device: Device)

  function RouteFor(c: Cloud, device: Device): Option<Route> {
    if device in c.routes then Some(c.routes[device]) else None
  }

  function AfterClear(c: Cloud, device: Device, route: Route): Cloud {
    if RouteFor(c, device) == Some(route) then c.(routes := c.routes - {device}) else c
  }

  function Next(c: Cloud, s: Section): Cloud {
    match s
    case Register(device) => c.(registry := c.registry[device := true])
    case SetRoute(device, route) => c.(routes := c.routes[device := route])
    case ClearRoute(device, route) => AfterClear(c, device, route)
    case DropRoute(device) => c.(routes := c.routes - {device})
    case MarkOffline(device) => if device in c.registry then c.(registry := c.registry[device := false]) else c
  }

  function Run(sections: seq<Section>): Cloud {
    if sections == [] then Cloud(map[], map[]) else Next(Run(sections[..|sections| - 1]), sections[|sections| - 1])
  }

  /** The section takes the route away from the device, or puts another in its place. */
  predicate Ends(s: Section, device: Device, route: Route) {
    match s
    case SetRoute(d, r) => d == device && r != route
    case ClearRoute(d, r) => d == device && r == route
    case DropRoute(d) => d == device
    case _ => false
  }

  /** The route was set for the device, and nothing since has ended that. */
  ghost predicate LastSet(sections: seq<Section>, device: Device, route: Route) {
    exists i :: 0 <= i < |sections| && sections[i] == SetRoute(device, route)
      && forall j :: i < j < |sections| ==> !Ends(sections[j], device, route)
  }

  /** Route ownership: after any interleaving the table holds for a device exactly the last route
      set for it, unless that very route was cleared or the device was dropped. */
  lemma {:induction false} TableHoldsLastSet(sections: seq<Section>, device: Device, route: Route)
    ensures RouteFor(Run(sections), device) == Some(route) <==> LastSet(sections, device, route)
  {
    if sections != [] {
      var n := |sections| - 1;
      var before, last := sections[..n], sections[n];
      TableHoldsLastSet(before, device, route);
      LastSetAfter(sections, device, route);
      hide LastSet;
    }
  }

  lemma LastSetAfter(sections: seq<Section>, device: Device, route: Route)
    requires sections != []
    ensures
      var n := |sections| - 1;
      LastSet(sections, device, route) <==>
        || sections[n] == SetRoute(device, route)
        || (LastSet(sections[..n], device, route) && !Ends(sections[n], device, route))
  {
    hide Ends;
    var n := |sections| - 1;
    var before := sections[..n];
    if sections[n] != SetRoute(device, route) {
      if LastSet(before, device, route) && !Ends(sections[n], device, route) {
        var i :| 0 <= i < n && before[i] == SetRoute(device, route)
          && forall j :: i < j < n ==> !Ends(before[j], device, route);
        assert sections[i] == SetRoute(device, route);
        assert forall j :: i < j < n ==> sections[j] == before[j];
      }
      if LastSet(sections, device, route) {
        var i :| 0 <= i < |sections| && sections[i] == SetRoute(device, route)
          && forall j :: i < j < |sections| ==> !Ends(sections[j], device, route);
        assert before[i] == SetRoute(device, route);
        assert forall j :: i < j < n ==> before[j] == sections[j];
      }
    }
  }

  /** The cleanup of a tunnel changes the table exactly if its own route is still there; then only
      that entry goes, so a successor stays. */
  lemma CleanupTakesOnlyItsOwn(c: Cloud, device: Device, route: Route, other: Device)
    ensures
      var c' := Next(c, ClearRoute(device, route));
      && (c' == c <==> RouteFor(c, device) != Some(route))
      && (RouteFor(c', other) != RouteFor(c, other) ==> other == device && RouteFor(c, other) == Some(route))
  {
  }

  datatype Summary = Summary(online: bool, status: string)

  function DeviceSummary(c: Cloud, device: Device): Summary {
    var online := RouteFor(c, device).Some?;
    Summary(online, if online then "online" else "offline")
  }

  /** What is reported follows the table. */
  lemma ReportedStatusFollowsTable(sections: seq<Section>, device: Device)
    ensures DeviceSummary(Run(sections), device).online <==> exists route :: LastSet(sections, device, route)
    ensures DeviceSummary(Run(sections), device).status ==
      if exists route :: LastSet(sections, device, route) then "online" else "offline"
  {
    var c := Run(sections);
    if device in c.routes {
      TableHoldsLastSet(sections, device, c.routes[device]);
    }
    if exists route :: LastSet(sections, device, route) {
      var route :| LastSet(sections, device, route);
      TableHoldsLastSet(sections, device, route);
    }
  }

  // ---- the registry -------------------------------------------------------------------

  predicate Registered(c: Cloud, device: Device) {
    device in c.registry && c.registry[device]
  }

  ghost predicate Connected(sections: seq<Section>, device: Device) {
    exists route :: LastSet(sections, device, route)
  }

  /** The device was registered, and not marked offline since. */
  ghost predicate LastRegistered(sections: seq<Section>, device: Device) {
    exists i :: 0 <= i < |sections| && sections[i] == Register(device)
      && forall j :: i < j < |sections| ==> sections[j] != MarkOffline(device)
  }

  lemma {:induction false} RegistryHoldsLastMark(sections: seq<Section>, device: Device)
    ensures Registered(Run(sections), device) <==> LastRegistered(sections, device)
  {
    if sections != [] {
      var n := |sections| - 1;
      RegistryHoldsLastMark(sections[..n], device);
      LastRegisteredAfter(sections, device);
      hide LastRegistered;
    }
  }

  lemma LastRegisteredAfter(sections: seq<Section>, device: Device)
    requires sections != []
    ensures
      var n := |sections| - 1;
      LastRegistered(sections, device) <==>
        sections[n] == Register(device) || (LastRegistered(sections[..n], device) && sections[n] != MarkOffline(device))
  {
    var n := |sections| - 1;
    var before := sections[..n];
    assert forall j :: 0 <= j < n ==> sections[j] == before[j];
    if sections[n] != Register(device) {
      if LastRegistered(before, device) && sections[n] != MarkOffline(device) {
        var i :| 0 <= i < n && before[i] == Register(device)
          && forall j :: i < j < n ==> before[j] != MarkOffline(device);
        assert sections[i] == Register(device);
      }
      if LastRegistered(sections, device) {
        var i :| 0 <= i < |sections| && sections[i] == Register(device)
          && forall j :: i < j < |sections| ==> sections[j] != MarkOffline(device);
        assert before[i] == Register(device);
      }
    }
  }

  /** The registry entry of a device agrees with the table if and only if the two last events do:
      it was registered without being marked offline since just when a route was set without
      being ended since. */
  lemma RegistryAgreesExactly(sections: seq<Section>, device: Device)
    ensures (Registered(Run(sections), device) <==> DeviceSummary(Run(sections), device).online)
       <==> (LastRegistered(sections, device) <==> Connected(sections, device))
  {
    RegistryHoldsLastMark(sections, device);
    ReportedStatusFollowsTable(sections, device);
  }

  /** Each route is set by a tunnel that has registered its device before. */
  ghost predicate RegistersFirst(sections: seq<Section>, device: Device) {
    forall i :: 0 <= i < |sections| && sections[i].SetRoute? && sections[i].device == device ==>
      Register(device) in sections[..i]
  }

  /** The mark `m` came after every registration of the device. */
  ghost predicate MarkedLast(sections: seq<Section>, device: Device, m: nat) {
    && m < |sections| && sections[m] == MarkOffline(device)
    && forall j :: m < j < |sections| ==> sections[j] != Register(device)
  }

  /** So with tunnels that register first, the registry calls a connected device offline if and
      only if some tunnel marked it offline after the last registration. */
  lemma WronglyOfflineExactly(sections: seq<Section>, device: Device)
    requires RegistersFirst(sections, device)
    ensures
      var c := Run(sections);
      DeviceSummary(c, device).online && !Registered(c, device) <==>
        Connected(sections, device) && exists m :: MarkedLast(sections, device, m)
  {
    RegistryHoldsLastMark(sections, device);
    ReportedStatusFollowsTable(sections, device);
    if Connected(sections, device) {
      var route :| LastSet(sections, device, route);
      var i :| 0 <= i < |sections| && sections[i] == SetRoute(device, route);
      assert Register(device) in sections[..i];
      assert Register(device) in sections;
      LastRegisteredOrMarked(sections, device);
    }
  }

  lemma LastRegisteredOrMarked(sections: seq<Section>, device: Device)
    requires Register(device) in sections
    ensures LastRegistered(sections, device) <==> !exists m :: MarkedLast(sections, device, m)
  {
    var i := LastOf(sections, Register(device));
    if !LastRegistered(sections, device) {
      var m :| i < m < |sections| && sections[m] == MarkOffline(device);
      assert MarkedLast(sections, device, m);
    }
  }

  lemma LastOf(sections: seq<Section>, s: Section) returns (i: nat)
    requires s in sections
    ensures i < |sections| && sections[i] == s && forall j :: i < j < |sections| ==> sections[j] != s
  {
    i := |sections| - 1;
    while sections[i] != s
      invariant i < |sections| && s in sections[..i + 1]
      invariant forall j :: i < j < |sections| ==> sections[j] != s
      decreases i
    {
      assert sections[..i + 1] == sections[..i] + [sections[i]];
      i := i - 1;
    }
  }

  /** Such a run: a tunnel that has cleared its route marks the device offline only after the next
      tunnel has registered. */
  lemma LateMarkWitness(device: Device)
    ensures
      var c := Run([Register(device), SetRoute(device, 1), ClearRoute(device, 1)]
                   + [Register(device)] + [SetRoute(device, 2)] + [MarkOffline(device)]);
      && c.registry == map[device := false] && RouteFor(c, device) == Some(2)
      && DeviceSummary(c, device).online
  {
    var first := [Register(device), SetRoute(device, 1), ClearRoute(device, 1)];
    assert first == [Register(device)] + [SetRoute(device, 1)] + [ClearRoute(device, 1)];
    RunOneMore([], Register(device));
    RunOneMore([Register(device)], SetRoute(device, 1));
    RunOneMore([Register(device)] + [SetRoute(device, 1)], ClearRoute(device, 1));
    assert Run(first) == Cloud(map[], map[device := true]);
    RunOneMore(first, Register(device));
    RunOneMore(first + [Register(device)], SetRoute(device, 2));
    RunOneMore(first + [Register(device)] + [SetRoute(device, 2)], MarkOffline(device));
  }

  lemma RunOneMore(sections: seq<Section>, s: Section)
    ensures Run(sections + [s]) == Next(Run(sections), s)
  {
  }

  class RouteTable {
    var routes: map<Device, Route>

    constructor ()
      ensures routes == map[]
    {
      routes := map[];
    }

    /** The route that was replaced is handed back to be closed. */
    method Set(device: Device, route: Route) returns (replaced: Option<Route>)
      modifies this
      ensures replaced == RouteFor(Cloud(old(routes), map[]), device)
      ensures routes == Next(Cloud(old(routes), map[]), SetRoute(device, route)).routes
    {
      replaced := if device in routes then Some(routes[device]) else None;
      routes := routes[device := route];
    }

    method Clear(device: Device, route: Route) returns (owned: bool)
      modifies this
      ensures owned <==> RouteFor(Cloud(old(routes), map[]), device) == Some(route)
      ensures routes == Next(Cloud(old(routes), map[]), ClearRoute(device, route)).routes
    {
      if device in routes && routes[device] == route {
        routes := routes - {device};
        return true;
      }
      return false;
    }

    method Drop(device: Device) returns (dropped: Option<Route>)
      modifies this
      ensures dropped == RouteFor(Cloud(old(routes), map[]), device)
      ensures routes == Next(Cloud(old(routes), map[]), DropRoute(device)).routes
    {
      dropped := if device in routes then Some(routes[device]) else None;
      routes := routes - {device};
    }
  }
}
