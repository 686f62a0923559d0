/** The server's presence registry (`ConnectedUserTracker`): connection id to display
    name, and the online-user view derived from it. */
module UserTracker {
  import opened Wrappers
  import opened Text
  import opened IgnoreCase

  /** `x` is the trimmed form of some non-blank name in `values`. */
  ghost predicate NameFrom(values: seq<string>, x: string) {
    exists v :: v in values && !IsBlank(v) && x == Trim(v)
  }

  /** `Where(non-blank).Select(Trim)`: the trimmed names of the non-blank entries, in order. */
  function TrimmedNames(values: seq<string>): (r: seq<string>)
    ensures forall x :: x in r ==> NameFrom(values, x)
    ensures forall v :: v in values && !IsBlank(v) ==> Trim(v) in r
    decreases |values|
  {
    if values == [] then []
    else
      var rest := TrimmedNames(values[1..]);
      assert forall v :: v in values ==> v == values[0] || v in values[1..];
      assert forall x :: NameFrom(values[1..], x) ==> NameFrom(values, x) by {
        forall x | NameFrom(values[1..], x) ensures NameFrom(values, x) {
          var v :| v in values[1..] && !IsBlank(v) && x == Trim(v);
          assert v in values;
        }
      }
      if IsBlank(values[0]) then rest
      else
        assert values[0] in values;
        [Trim(values[0])] + rest
  }

  /** The online view of the registered names, taken in the given enumeration order:
      `Where(non-blank).Select(Trim).Distinct(OrdinalIgnoreCase).OrderBy(OrdinalIgnoreCase)`. */
  function OnlineView(values: seq<string>): (r: seq<string>)
    ensures SortedIgnoreCase(r)
    ensures forall x :: x in r ==> NameFrom(values, x)
    ensures forall v :: v in values && !IsBlank(v) ==> ContainsIgnoreCase(r, Trim(v))
  {
    var names := TrimmedNames(values);
    var distinct := DistinctIgnoreCase(names);
    var r := SortIgnoreCase(distinct);
    SortKeepsMembers(distinct, r);
    r
  }

  /** Sorting neither adds nor loses a name. */
  lemma SortKeepsMembers(s: seq<string>, r: seq<string>)
    requires multiset(r) == multiset(s)
    ensures forall x :: x in r <==> x in s
    ensures forall x :: ContainsIgnoreCase(s, x) ==> ContainsIgnoreCase(r, x)
  {
    forall x ensures x in r <==> x in s {
      assert x in r <==> x in multiset(r);
      assert x in s <==> x in multiset(s);
    }
    forall x | ContainsIgnoreCase(s, x) ensures ContainsIgnoreCase(r, x) {
      var i := ContainsIgnoreCaseIndex(s, x);
      assert s[i] in r;
      var k :| 0 <= k < |r| && r[k] == s[i];
      ContainsIgnoreCaseAt(r, x, k);
    }
  }

  /** `x` is the trimmed form of the non-blank name stored for some connection. */
  ghost predicate StoredName(connections: map<string, string>, x: string) {
    exists id :: id in connections && !IsBlank(connections[id]) && x == Trim(connections[id])
  }

  /** What `GetOnlineUsers` promises of the registry `connections`, whatever order the
      dictionary enumerates its values in: ascending ignoring case without repeats,
      every entry the trimmed form of a stored non-blank name, and every stored
      non-blank name represented by an entry equal to it ignoring case. */
  ghost predicate IsOnlineView(connections: map<string, string>, users: seq<string>) {
    && SortedIgnoreCase(users)
    && (forall i :: 0 <= i < |users| ==> StoredName(connections, users[i]))
    && (forall id :: id in connections && !IsBlank(connections[id]) ==>
          ContainsIgnoreCase(users, Trim(connections[id])))
  }

  /** The registry's names listed in the enumeration order `order` of its ids. The ensures
      only exposes the elements to callers; `OnlineViewOfOrder` states what the pipeline
      makes of them. */
  function ValuesInOrder(connections: map<string, string>, order: seq<string>): (values: seq<string>)
    requires forall k :: 0 <= k < |order| ==> order[k] in connections
    ensures |values| == |order|
    ensures forall k :: 0 <= k < |order| ==> values[k] == connections[order[k]]
  {
    seq(|order|, k requires 0 <= k < |order| => connections[order[k]])
  }

  /** Whatever order the ids are enumerated in, the pipeline yields a view of the registry. */
  lemma OnlineViewOfOrder(connections: map<string, string>, order: seq<string>)
    requires forall k :: 0 <= k < |order| ==> order[k] in connections
    requires forall id :: id in connections ==> id in order
    ensures IsOnlineView(connections, OnlineView(ValuesInOrder(connections, order)))
  {
    var values := ValuesInOrder(connections, order);
    var users := OnlineView(values);
    ViewEntriesStored(connections, order, values, users);
    ViewCoversStored(connections, order, values, users);
  }

  lemma ViewEntriesStored(connections: map<string, string>, order: seq<string>, values: seq<string>, users: seq<string>)
    requires |values| == |order|
    requires forall k :: 0 <= k < |order| ==> order[k] in connections && values[k] == connections[order[k]]
    requires forall x :: x in users ==> NameFrom(values, x)
    ensures forall i :: 0 <= i < |users| ==> StoredName(connections, users[i])
  {
    forall i | 0 <= i < |users| ensures StoredName(connections, users[i]) {
      assert users[i] in users;
      var v :| v in values && !IsBlank(v) && users[i] == Trim(v);
      var k :| 0 <= k < |values| && values[k] == v;
      assert order[k] in connections;
    }
  }

  lemma ViewCoversStored(connections: map<string, string>, order: seq<string>, values: seq<string>, users: seq<string>)
    requires |values| == |order|
    requires forall k :: 0 <= k < |order| ==> order[k] in connections && values[k] == connections[order[k]]
    requires forall id :: id in connections ==> id in order
    requires forall v :: v in values && !IsBlank(v) ==> ContainsIgnoreCase(users, Trim(v))
    ensures forall id :: id in connections && !IsBlank(connections[id]) ==> ContainsIgnoreCase(users, Trim(connections[id]))
  {
    forall id | id in connections && !IsBlank(connections[id])
      ensures ContainsIgnoreCase(users, Trim(connections[id]))
    {
      var k :| 0 <= k < |order| && order[k] == id;
      assert values[k] in values;
    }
  }

  /** Every entry of the view is trimmed and non-blank, and no two entries are equal
      ignoring case. */
  lemma OnlineViewEntries(connections: map<string, string>, users: seq<string>)
    requires IsOnlineView(connections, users)
    ensures forall i :: 0 <= i < |users| ==> IsTrimmed(users[i]) && !IsBlank(users[i])
    ensures DistinctFolds(users)
  {
    SortedIsDistinct(users);
    forall i | 0 <= i < |users| ensures IsTrimmed(users[i]) && !IsBlank(users[i]) {
      assert StoredName(connections, users[i]);
      var id :| id in connections && !IsBlank(connections[id]) && users[i] == Trim(connections[id]);
    }
  }

  /** When every stored name is the same name up to case, the view has exactly one
      entry, and it is one of the stored names. */
  lemma OneNameView(connections: map<string, string>, users: seq<string>, name: string)
    requires IsOnlineView(connections, users)
    requires connections.Keys != {}
    requires forall id :: id in connections ==>
      !IsBlank(connections[id]) && IsTrimmed(connections[id]) && EqualsIgnoreCase(connections[id], name)
    ensures |users| == 1
    ensures exists id :: id in connections && users[0] == connections[id]
  {
    var id0 :| id0 in connections.Keys;
    assert ContainsIgnoreCase(users, Trim(connections[id0]));
    assert StoredName(connections, users[0]);
    var id :| id in connections && !IsBlank(connections[id]) && users[0] == Trim(connections[id]);
    TrimOfTrimmed(connections[id]);
    if |users| >= 2 {
      assert StoredName(connections, users[1]);
      var id1 :| id1 in connections && !IsBlank(connections[id1]) && users[1] == Trim(connections[id1]);
      TrimOfTrimmed(connections[id1]);
      assert EqualsIgnoreCase(users[0], users[1]);
      SortedIsDistinct(users);
      assert false;
    }
  }

  /** The three names of the scenario below are trimmed, non-blank, and one name up to case. */
  lemma BobNames()
    ensures !IsBlank("bob") && IsTrimmed("bob") && !IsBlank("Bob") && IsTrimmed("Bob")
    ensures EqualsIgnoreCase("bob", "Bob") && EqualsIgnoreCase("Bob", "Bob") && EqualsIgnoreCase("bob", "bob")
  {
    assert !IsWhiteSpace("bob"[0]) && !IsWhiteSpace("Bob"[0]);
    assert Fold("bob") == Fold("Bob") by {
      assert Fold("bob")[0] == FoldChar('b') == 'B';
    }
  }

  class ConnectedUserTracker {
    var connections: map<string, string>

    constructor ()
      ensures connections == map[]
    {
      connections := map[];
    }

    /** Upserts the sanitised name for `connectionId` and returns the new view. */
    method RegisterConnection(connectionId: string, user: Option<string>) returns (users: seq<string>)
      modifies this
      ensures connections == old(connections)[connectionId := SanitizeName(user)]
      ensures IsOnlineView(connections, users)
    {
      var sanitizedUser := SanitizeName(user);
      connections := connections[connectionId := sanitizedUser];
      users := GetOnlineUsers();
    }

    /** Removes `connectionId` if present and returns the new view. */
    method RemoveConnection(connectionId: string) returns (users: seq<string>)
      modifies this
      ensures connections == old(connections) - {connectionId}
      ensures IsOnlineView(connections, users)
    {
      connections := connections - {connectionId};
      users := GetOnlineUsers();
    }

    /** The online view. The dictionary's enumeration order is unspecified, so the values
        are collected in an arbitrary order; it decides only which casing represents a
        name that is registered in several casings. */
    method GetOnlineUsers() returns (users: seq<string>)
      ensures IsOnlineView(connections, users)
    {
      var order: seq<string> := [];
      var pending := connections.Keys;
      while pending != {}
        invariant pending <= connections.Keys
        invariant forall k :: 0 <= k < |order| ==> order[k] in connections
        invariant forall id :: id in connections && id !in pending ==> id in order
        decreases pending
      {
        var id :| id in pending;
        order := order + [id];
        pending := pending - {id};
      }
      users := OnlineView(ValuesInOrder(connections, order));
      OnlineViewOfOrder(connections, order);
    }
  }

  /** A registry with a single connection shows exactly its (sanitised) name. */
  lemma SingleNameView(id: string, name: string, users: seq<string>)
    requires IsOnlineView(map[id := name], users)
    requires !IsBlank(name) && IsTrimmed(name)
    ensures users == [name]
  {
    var m := map[id := name];
    assert id in m.Keys;
    assert EqualsIgnoreCase(name, name);
    OneNameView(m, users, name);
  }

  /** The registry of the scenario's second step holds two casings of one name. */
  lemma TwoCasingsRegistry()
    ensures var m := map["c1" := "bob", "c2" := "Bob"];
      forall id :: id in m ==>
        && !IsBlank(m[id]) && IsTrimmed(m[id]) && EqualsIgnoreCase(m[id], "bob")
        && (m[id] == "bob" || m[id] == "Bob")
  {
    BobNames();
  }

  lemma SecondView(users: seq<string>)
    requires IsOnlineView(map["c1" := "bob", "c2" := "Bob"], users)
    ensures users == ["bob"] || users == ["Bob"]
  {
    var m := map["c1" := "bob", "c2" := "Bob"];
    TwoCasingsRegistry();
    assert "c1" in m.Keys;
    OneNameView(m, users, "bob");
    assert users[0] == "bob" || users[0] == "Bob";
    assert users == [users[0]];
  }

  /** Register "bob" on c1 and "Bob" on c2, then remove c1: the second view holds one
      entry in one of the two casings, and after the removal only "Bob" is left. */
  method PresenceScenario() returns (first: seq<string>, second: seq<string>, third: seq<string>)
    ensures first == ["bob"]
    ensures second == ["bob"] || second == ["Bob"]
    ensures third == ["Bob"]
  {
    var tracker := new ConnectedUserTracker();
    first := RegisterStep(tracker, "c1", "bob");
    assert tracker.connections == map["c1" := "bob"];
    BobNames();
    SingleNameView("c1", "bob", first);
    second := RegisterStep(tracker, "c2", "Bob");
    assert tracker.connections == map["c1" := "bob", "c2" := "Bob"];
    SecondView(second);
    third := tracker.RemoveConnection("c1");
    RemovalOfFirst();
    SingleNameView("c2", "Bob", third);
  }

  lemma RemovalOfFirst()
    ensures map["c1" := "bob", "c2" := "Bob"] - {"c1"} == map["c2" := "Bob"]
  {
    assert "c1"[1] != "c2"[1];
  }

  /** Registers a name that is already trimmed and non-blank. */
  method RegisterStep(tracker: ConnectedUserTracker, id: string, name: string) returns (users: seq<string>)
    requires IsTrimmed(name) && !IsBlank(name)
    modifies tracker
    ensures tracker.connections == old(tracker.connections)[id := name]
    ensures IsOnlineView(tracker.connections, users)
  {
    TrimOfTrimmed(name);
    users := tracker.RegisterConnection(id, Some(name));
  }
}
