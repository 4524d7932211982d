// How the plugin follows the scans of the devices: servers come, go, or are told of a change.
module DeviceUpdate {
  import opened DevicePlugin
  import opened FakeDevices
  import opened Maps

  type Group = map<string, Device>

  /** What the comparison of two scans finds. */
  datatype Change = Change(added: map<string, Group>, updated: map<string, Group>, removed: map<string, Group>)

  ghost function Updated(before: map<string, Group>, now: map<string, Group>): map<string, Group> {
    map t | t in now && t in before && before[t] != now[t] :: now[t]
  }

  ghost function Difference(before: map<string, Group>, now: map<string, Group>): Change {
    Change(now - before.Keys, Updated(before, now), before - now.Keys)
  }

  method Compare(devices: map<string, Group>, n: map<string, Group>) returns (c: Change)
    ensures c == Difference(devices, n)
  {
    var left, updated, removed := n, map[], map[];
    var todo := devices.Keys;
    Nothing(devices);
    while todo != {}
      invariant todo <= devices.Keys
      invariant Change(left, updated, removed) == Difference(devices - todo, n)
    {
      var t :| t in todo;
      CopyOne(devices, todo, t);
      DifferenceStep(devices - todo, n, t, devices[t]);
      if t in left {
        if devices[t] != left[t] {
          updated := updated[t := left[t]];
        }
        left := left - {t};
      } else {
        removed := removed[t := devices[t]];
      }
      todo := todo - {t};
    }
    var added := Copy(left);
    c := Change(added, updated, removed);
  }

  method Copy(m: map<string, Group>) returns (r: map<string, Group>)
    ensures r == m
  {
    r := map[];
    var todo := m.Keys;
    Nothing(m);
    while todo != {}
      invariant todo <= m.Keys
      invariant r == m - todo
    {
      var t :| t in todo;
      CopyOne(m, todo, t);
      r := r[t := m[t]];
      todo := todo - {t};
    }
  }

  /** One more type of the earlier scan has been compared. */
  lemma DifferenceStep(before: map<string, Group>, n: map<string, Group>, t: string, group: Group)
    requires t !in before
    ensures
      var c, d := Difference(before, n), Difference(before[t := group], n);
      && (t in c.added <==> t in n)
      && (t in c.added ==> c.added[t] == n[t])
      && d == Change(
                c.added - {t},
                if t in n && group != n[t] then c.updated[t := n[t]] else c.updated,
                if t in n then c.removed else c.removed[t := group])
  {
    var before' := before[t := group];
    assert before'.Keys == before.Keys + {t};
    assert n - before'.Keys == n - before.Keys - {t};
    assert before' - n.Keys == if t in n then before - n.Keys else (before - n.Keys)[t := group];
    UpdatedStep(before, n, t, group);
  }

  lemma UpdatedStep(before: map<string, Group>, n: map<string, Group>, t: string, group: Group)
    requires t !in before
    ensures Updated(before[t := group], n) ==
            if t in n && group != n[t] then Updated(before, n)[t := n[t]] else Updated(before, n)
  {
  }

  /** The parts of a comparison, put together, make the new scan. */
  lemma Assembled(before: map<string, Group>, n: map<string, Group>)
    ensures
      var c := Difference(before, n);
      && c.added.Keys == n.Keys - before.Keys
      && c.removed.Keys == before.Keys - n.Keys
      && c.updated.Keys <= before.Keys * n.Keys
      && before + c.added - c.removed.Keys + c.updated == n
      && (before + c.added - c.removed.Keys).Keys == n.Keys
  {
  }

  class FPGADevicePlugin {
    var devices: map<string, Group>
    var servers: map<string, FPGADevicePluginServer>

    constructor ()
      ensures Valid() && devices == map[]
    {
      devices, servers := map[], map[];
    }

    /** One running server for each type of the last scan, and its last message is what that scan said. */
    ghost predicate Valid()
      reads this, servers.Values
    {
      ServersOk(servers, devices)
    }

    method AddServer(t: string, group: Group)
      requires Valid() && t !in servers
      modifies this
      ensures Valid()
      ensures devices == old(devices)[t := group]
      ensures t in servers && fresh(servers[t]) && servers == old(servers)[t := servers[t]]
      ensures servers[t].inbox == [] && Unused(servers[t], group)
    {
      var server := new FPGADevicePluginServer(t, group);
      devices := devices[t := group];
      servers := servers[t := server];
    }

    method AddNext(added: map<string, Group>, todo: set<string>, ghost first: map<string, Group>)
        returns (left: set<string>)
      requires Valid() && todo != {} && todo <= added.Keys && todo !! servers.Keys
      requires devices == first + (added - todo)
      modifies this
      ensures Valid()
      ensures left < todo && servers.Keys == old(servers.Keys) + (todo - left)
      ensures devices == first + (added - left)
      ensures forall t :: t in old(servers) ==> servers[t] == old(servers)[t]
      ensures forall t :: t in todo && t !in left ==>
                fresh(servers[t]) && servers[t].inbox == [] && Unused(servers[t], added[t])
    {
      var t :| t in todo;
      left := todo - {t};
      VisitOne(first, added, todo, t);
      AddServer(t, added[t]);
    }

    method AddServers(added: map<string, Group>)
      requires Valid() && added.Keys !! servers.Keys
      modifies this
      ensures Valid()
      ensures devices == old(devices) + added
      ensures Extends(old(servers), servers)
      ensures forall t :: t in added ==> fresh(servers[t]) && servers[t].inbox == [] && Unused(servers[t], added[t])
    {
      var todo := added.Keys;
      ghost var first := devices;
      Nothing(added);
      Nothing(devices);
      while todo != {}
        invariant todo <= added.Keys && todo !! servers.Keys
        invariant Valid()
        invariant devices == first + (added - todo)
        invariant Extends(old(servers), servers)
        invariant forall t :: t in added && t !in todo ==>
                    t in servers && fresh(servers[t]) && servers[t].inbox == [] && Unused(servers[t], added[t])
      {
        todo := AddNext(added, todo, first);
      }
    }

    method RemoveServer(t: string, server: FPGADevicePluginServer)
      requires Valid() && t in servers && server == servers[t]
      modifies this, server`stopped
      ensures Valid()
      ensures devices == old(devices) - {t} && servers == old(servers) - {t}
      ensures server.stopped
    {
      server.Stop();
      servers := servers - {t};
      devices := devices - {t};
    }

    method RemoveServers(removed: set<string>)
      requires Valid() && removed <= servers.Keys
      modifies this, servers.Values`stopped
      ensures Valid()
      ensures devices == old(devices) - removed && servers == old(servers) - removed
      ensures forall t :: t in removed ==> old(servers)[t].stopped
    {
      ghost var before := servers;
      var todo := removed;
      assert removed - removed == {} && removed - {} == removed;
      Nothing(devices);
      Nothing(servers);
      while todo != {}
        invariant todo <= removed
        invariant Valid()
        invariant devices == old(devices) - (removed - todo) && servers == before - (removed - todo)
        invariant forall t :: t in removed && t !in todo ==> before[t].stopped
      {
        var t :| t in todo;
        assert servers[t] == before[t] && before[t] in before.Values;
        RemoveOne(old(devices), removed, todo, t);
        RemoveOne(before, removed, todo, t);
        RemoveServer(t, servers[t]);
        todo := todo - {t};
      }
    }

    method UpdateServer(t: string, server: FPGADevicePluginServer, group: Group)
      requires Valid() && t in servers && server == servers[t]
      modifies this`devices, server`inbox
      ensures Valid()
      ensures devices == old(devices)[t := group]
      ensures Messages(servers) == old(Messages(servers))[t := old(Messages(servers))[t] + [group]]
    {
      ghost var messages := Messages(servers);
      devices := devices[t := group];
      server.Send(group);
      ChangedAt(messages, Messages(servers), t);
    }

    method UpdateNext(updated: map<string, Group>, todo: set<string>, ghost first: map<string, Group>,
                      ghost messages: map<string, seq<Group>>)
        returns (left: set<string>)
      requires Valid() && todo != {} && todo <= updated.Keys <= servers.Keys
      requires devices == first + (updated - todo)
      requires messages.Keys == servers.Keys && Messages(servers) == Appended(messages, updated - todo)
      modifies this`devices, servers.Values`inbox
      ensures Valid()
      ensures left < todo
      ensures devices == first + (updated - left)
      ensures Messages(servers) == Appended(messages, updated - left)
    {
      var t :| t in todo;
      left := todo - {t};
      UpdateStep(first, messages, updated, todo, t);
      assert servers[t] in servers.Values;
      UpdateServer(t, servers[t], updated[t]);
    }

    method UpdateServers(updated: map<string, Group>)
      requires Valid() && updated.Keys <= servers.Keys
      modifies this`devices, servers.Values`inbox
      ensures Valid()
      ensures devices == old(devices) + updated
      ensures Messages(servers) == Appended(old(Messages(servers)), updated)
    {
      var todo := updated.Keys;
      ghost var first, messages := devices, Messages(servers);
      Nothing(updated);
      Nothing(devices);
      AppendedNone(messages);
      while todo != {}
        invariant todo <= updated.Keys
        invariant Valid()
        invariant devices == first + (updated - todo)
        invariant Messages(servers) == Appended(messages, updated - todo)
      {
        todo := UpdateNext(updated, todo, first, messages);
      }
    }

    method AddAndRemove(added: map<string, Group>, removed: set<string>)
      requires Valid() && added.Keys !! servers.Keys && removed <= servers.Keys
      modifies this, servers.Values`stopped
      ensures Valid()
      ensures devices == old(devices) + added - removed
      ensures Kept(old(servers), servers)
      ensures forall t :: t in removed ==> old(servers)[t].stopped
      ensures forall t :: t in added ==> t in servers && fresh(servers[t]) && Unused(servers[t], added[t])
      ensures forall t :: t in servers ==>
                Messages(servers)[t] == if t in added then [] else old(Messages(servers))[t]
    {
      AddServers(added);
      RemoveServers(removed);
    }

    /** Servers come and go; the changed devices of the others are still to be told. */
    method Replace(n: map<string, Group>) returns (updated: map<string, Group>)
      requires Valid()
      modifies this, servers.Values`stopped
      ensures Valid()
      ensures updated == Updated(old(devices), n)
      ensures servers.Keys == n.Keys && devices + updated == n
      ensures Kept(old(servers), servers)
      ensures forall t :: t in n && t !in old(devices) ==> fresh(servers[t]) && Unused(servers[t], n[t])
      ensures forall t :: t in old(devices) && t !in n ==> old(servers)[t].stopped
      ensures forall t :: t in n ==>
                Messages(servers)[t] == if t in old(devices) then old(Messages(servers))[t] else []
    {
      var c := Compare(devices, n);
      Assembled(devices, n);
      AddAndRemove(c.added, c.removed.Keys);
      updated := c.updated;
    }

    /** The plugin takes over a scan. Surviving servers are the same objects, and of those only the ones whose
        devices changed get a message. */
    method CheckDeviceUpdate(n: map<string, Group>)
      requires Valid()
      modifies this, servers.Values`stopped, servers.Values`inbox
      ensures Valid()
      ensures devices == n
      ensures Kept(old(servers), servers)
      ensures forall t :: t in n && t !in old(devices) ==> fresh(servers[t])
      ensures forall t :: t in old(devices) && t !in n ==> old(servers)[t].stopped
      ensures Messages(servers) == Outcome(old(devices), old(Messages(servers)), n)
    {
      var updated := Replace(n);
      ghost var messages := Messages(servers);
      UpdateServers(updated);
      AssembledMessages(old(devices), old(Messages(servers)), n, messages);
    }

    /** The same scan again changes nothing. */
    method CheckAgain()
      requires Valid()
      modifies this, servers.Values`stopped, servers.Values`inbox
      ensures Valid()
      ensures devices == old(devices) && servers == old(servers)
      ensures Messages(servers) == old(Messages(servers))
    {
      CheckDeviceUpdate(devices);
      assert servers.Keys == old(servers).Keys;
      OutcomeSame(devices, old(Messages(servers)));
    }
  }

  /** The server has been made with these devices, and none of its boards is numbered yet. */
  ghost predicate Unused(server: FPGADevicePluginServer, group: Group)
    reads server
  {
    server.initial == group && server.devices == group && server.realDevices == map[]
  }

  /** A type that has a server before and after has the same one. */
  ghost predicate Kept(before: map<string, FPGADevicePluginServer>, after: map<string, FPGADevicePluginServer>) {
    forall t :: t in before && t in after ==> before[t] == after[t]
  }

  /** What has been sent to the server of each type after a scan. */
  ghost function Outcome(devices: map<string, Group>, messages: map<string, seq<Group>>, n: map<string, Group>)
      : map<string, seq<Group>>
    requires messages.Keys == devices.Keys
  {
    map t | t in n :: if t in devices then messages[t] + Told(devices[t], n[t]) else []
  }

  lemma AssembledMessages(devices: map<string, Group>, messages: map<string, seq<Group>>, n: map<string, Group>,
                          added: map<string, seq<Group>>)
    requires messages.Keys == devices.Keys && added.Keys == n.Keys
    requires forall t :: t in n ==> added[t] == if t in devices then messages[t] else []
    ensures Appended(added, Updated(devices, n)) == Outcome(devices, messages, n)
  {
  }

  lemma OutcomeSame(devices: map<string, Group>, messages: map<string, seq<Group>>)
    requires messages.Keys == devices.Keys
    ensures Outcome(devices, messages, devices) == messages
  {
    assert forall t :: t in messages ==> messages[t] + [] == messages[t];
  }

  /** The message about a type of both scans, if any. */
  function Told(before: Group, now: Group): seq<Group> {
    if before != now then [now] else []
  }

  ghost predicate Extends(m: map<string, FPGADevicePluginServer>, n: map<string, FPGADevicePluginServer>) {
    m.Keys <= n.Keys && forall t :: t in m ==> n[t] == m[t]
  }

  /** Everything sent to each server. */
  ghost function Messages(servers: map<string, FPGADevicePluginServer>): (m: map<string, seq<Group>>)
    reads servers.Values
    ensures m.Keys == servers.Keys
  {
    map t | t in servers :: servers[t].inbox
  }

  ghost function Appended(messages: map<string, seq<Group>>, more: map<string, Group>): map<string, seq<Group>> {
    map t | t in messages :: messages[t] + if t in more then [more[t]] else []
  }

  lemma ChangedAt<V>(m: map<string, V>, n: map<string, V>, t: string)
    requires t in m && m.Keys == n.Keys
    requires forall u :: u in m && u != t ==> n[u] == m[u]
    ensures n == m[t := n[t]]
  {
  }

  lemma AppendedNone(messages: map<string, seq<Group>>)
    ensures Appended(messages, map[]) == messages
  {
    assert forall t :: t in messages ==> messages[t] + [] == messages[t];
  }

  /** One more update has gone out, with todo still to come. */
  lemma UpdateStep(devices: map<string, Group>, messages: map<string, seq<Group>>, updated: map<string, Group>,
                   todo: set<string>, t: string)
    requires t in todo && todo <= updated.Keys <= messages.Keys
    ensures devices + (updated - (todo - {t})) == (devices + (updated - todo))[t := updated[t]]
    ensures Appended(messages, updated - todo)[t] == messages[t]
    ensures Appended(messages, updated - (todo - {t})) ==
            Appended(messages, updated - todo)[t := messages[t] + [updated[t]]]
  {
  }

  ghost predicate ServersOk(servers: map<string, FPGADevicePluginServer>, devices: map<string, Group>)
    reads servers.Values
  {
    && servers.Keys == devices.Keys
    && forall t :: t in servers ==> ServerOk(servers[t], t, devices[t])
  }

  ghost predicate ServerOk(server: FPGADevicePluginServer, t: string, group: Group)
    reads server
  {
    server.devType == t && !server.stopped && server.LastTold() == group
  }
}
