/** The WebSocket connection registry (`ConnectionManager`): chat sockets per
    problem, the admins' sockets, and each user's sockets, with the
    broadcasts that go through them. A socket is an opaque handle; sending is
    modelled by which sends fail. */
module Registry {
  import opened Models

  type Socket = int

  datatype Manager = Manager(
    chats: map<int, seq<Socket>>,
    admins: seq<Socket>,
    users: map<int, seq<Socket>>)

  const EmptyManager: Manager := Manager(map[], [], map[])

  /** Chat lists are deleted when they become empty. */
  predicate NoEmptyChats(m: Manager)
  {
    forall pid :: pid in m.chats ==> m.chats[pid] != []
  }

  /** The list a key holds, or none. */
  function ListAt(lists: map<int, seq<Socket>>, key: int): seq<Socket>
  {
    if key in lists then lists[key] else []
  }

  /** The two maps of lists agree on every key but `key`. */
  predicate Elsewhere(a: map<int, seq<Socket>>, b: map<int, seq<Socket>>, key: int)
  {
    && (forall q :: q in a && q != key ==> q in b && a[q] == b[q])
    && (forall q :: q in b && q != key ==> q in a)
  }

  /** Where `x` first occurs in `s`. */
  function FirstIndex(s: seq<Socket>, x: Socket): (i: nat)
    requires x in s
    ensures i < |s| && s[i] == x && x !in s[..i]
  {
    if s[0] == x then 0
    else
      assert s == [s[0]] + s[1..];
      var j := FirstIndex(s[1..], x);
      assert s[..j + 1] == [s[0]] + s[1..][..j];
      j + 1
  }

  /** `list.remove`: drops the first occurrence, if there is one, and keeps
      the order of the rest. */
  function RemoveFirst(s: seq<Socket>, x: Socket): (r: seq<Socket>)
    ensures x !in s ==> r == s
    ensures x in s ==> |r| == |s| - 1
    ensures x in s ==> exists i :: 0 <= i < |s| && s[i] == x && x !in s[..i] && r == s[..i] + s[i + 1..]
    ensures multiset(r) == multiset(s) - multiset{x}
  {
    if x !in s then s
    else
      var i := FirstIndex(s, x);
      assert s == s[..i] + [x] + s[i + 1..];
      s[..i] + s[i + 1..]
  }

  /** Removing the occurrence just appended gives the list back. */
  lemma RemoveAppended(s: seq<Socket>, x: Socket)
    requires x !in s
    ensures RemoveFirst(s + [x], x) == s
  {
    var t := s + [x];
    var i :| 0 <= i < |t| && t[i] == x && x !in t[..i] && RemoveFirst(t, x) == t[..i] + t[i + 1..];
    assert forall k :: 0 <= k < |s| ==> t[k] == s[k];
    assert i == |s|;
    assert t[..|s|] == s;
  }

  // ===========================================================================
  // Chat connections
  // ===========================================================================

  /** `chat_connect`: the socket joins the end of the problem's list. */
  function ChatConnect(m: Manager, ws: Socket, pid: int): (r: Manager)
    ensures pid in r.chats && r.chats[pid] == ListAt(m.chats, pid) + [ws]
    ensures Elsewhere(r.chats, m.chats, pid)
    ensures r.admins == m.admins && r.users == m.users
    ensures NoEmptyChats(m) ==> NoEmptyChats(r)
  {
    m.(chats := m.chats[pid := ListAt(m.chats, pid) + [ws]])
  }

  /** `chat_disconnect`: the socket leaves the problem's list, and a list
      left empty is deleted. */
  function ChatDisconnect(m: Manager, ws: Socket, pid: int): (r: Manager)
    ensures pid in r.chats ==> pid in m.chats && r.chats[pid] != [] && multiset(r.chats[pid]) == multiset(m.chats[pid]) - multiset{ws}
    ensures pid in m.chats && pid !in r.chats ==> multiset(m.chats[pid]) - multiset{ws} == multiset{}
    ensures pid in m.chats ==> (pid in r.chats <==> RemoveFirst(m.chats[pid], ws) != [])
    ensures pid in r.chats ==> r.chats[pid] == RemoveFirst(m.chats[pid], ws)
    ensures Elsewhere(r.chats, m.chats, pid)
    ensures r.admins == m.admins && r.users == m.users
    ensures NoEmptyChats(m) ==> NoEmptyChats(r)
  {
    if pid !in m.chats then m
    else
      var rest := RemoveFirst(m.chats[pid], ws);
      if rest == [] then m.(chats := m.chats - {pid}) else m.(chats := m.chats[pid := rest])
  }

  /** Disconnecting a socket from a chat it is not in, or from a problem
      without a chat, changes nothing. */
  lemma ChatDisconnectUnknown(m: Manager, ws: Socket, pid: int)
    requires pid in m.chats ==> m.chats[pid] != [] && ws !in m.chats[pid]
    ensures ChatDisconnect(m, ws, pid) == m
  {
    if pid in m.chats {
      assert m.chats[pid := m.chats[pid]] == m.chats;
    }
  }

  /** A socket that joins a chat and then leaves it leaves the registry as it
      was, including deleting the list it created. */
  lemma ChatRoundTrip(m: Manager, ws: Socket, pid: int)
    requires pid in m.chats ==> m.chats[pid] != [] && ws !in m.chats[pid]
    ensures ChatDisconnect(ChatConnect(m, ws, pid), ws, pid) == m
  {
    if pid in m.chats {
      RoundTripExisting(m, ws, pid);
    } else {
      RoundTripFresh(m, ws, pid);
    }
  }

  lemma RoundTripExisting(m: Manager, ws: Socket, pid: int)
    requires pid in m.chats && m.chats[pid] != [] && ws !in m.chats[pid]
    ensures ChatDisconnect(ChatConnect(m, ws, pid), ws, pid) == m
  {
    RemoveAppended(m.chats[pid], ws);
    assert RemoveFirst(m.chats[pid] + [ws], ws) == m.chats[pid];
  }

  lemma RoundTripFresh(m: Manager, ws: Socket, pid: int)
    requires pid !in m.chats
    ensures ChatDisconnect(ChatConnect(m, ws, pid), ws, pid) == m
  {
    assert RemoveFirst([ws], ws) == [];
    assert m.chats[pid := [ws]] - {pid} == m.chats;
  }



  /** The sockets of `s` whose send fails, in order. */
  function Failed(s: seq<Socket>, failed: set<Socket>): (r: seq<Socket>)
    ensures forall x :: x in r <==> x in s && x in failed
  {
    if s == [] then []
    else
      assert s == [s[0]] + s[1..];
      (if s[0] in failed then [s[0]] else []) + Failed(s[1..], failed)
  }

  /** The sends of `broadcast_to_problem` over the sockets still to be tried:
      a socket whose send fails is connected to the chat again. */
  function Deliver(m: Manager, pid: int, pending: seq<Socket>, failed: set<Socket>): (r: Manager)
    requires pid in m.chats
    ensures r == m.(chats := m.chats[pid := m.chats[pid] + Failed(pending, failed)])
    decreases |pending|
  {
    if pending == [] then
      assert m.chats[pid] + Failed(pending, failed) == m.chats[pid];
      assert m.chats[pid := m.chats[pid]] == m.chats;
      m
    else
      var x := pending[0];
      assert pending == [x] + pending[1..];
      if x in failed then
        var m' := ChatConnect(m, x, pid);
        assert Failed(pending, failed) == [x] + Failed(pending[1..], failed);
        assert m'.chats[pid] + Failed(pending[1..], failed) == m.chats[pid] + Failed(pending, failed);
        assert m'.chats[pid := m'.chats[pid] + Failed(pending[1..], failed)] == m.chats[pid := m.chats[pid] + Failed(pending, failed)];
        Deliver(m', pid, pending[1..], failed)
      else
        assert Failed(pending, failed) == Failed(pending[1..], failed);
        Deliver(m, pid, pending[1..], failed)
  }

  /** `broadcast_to_problem`: the message is sent to every socket the chat held
      when it started (the second component). Each socket whose send fails is
      appended again rather than removed, so it is then listed twice as often. */
  function BroadcastToProblem(m: Manager, pid: int, failed: set<Socket>): (r: (Manager, seq<Socket>))
    ensures pid !in m.chats ==> r == (m, [])
    ensures pid in m.chats ==> r.1 == m.chats[pid] && pid in r.0.chats && r.0.chats[pid] == m.chats[pid] + Failed(m.chats[pid], failed)
    ensures Elsewhere(r.0.chats, m.chats, pid)
    ensures r.0.admins == m.admins && r.0.users == m.users
    ensures NoEmptyChats(m) ==> NoEmptyChats(r.0)
  {
    if pid !in m.chats then (m, [])
    else (Deliver(m, pid, m.chats[pid], failed), m.chats[pid])
  }

  /** A socket whose send failed appears once more for every time it
      appears in `s`. */
  lemma {:induction false} FailedCount(s: seq<Socket>, failed: set<Socket>, x: Socket)
    ensures multiset(Failed(s, failed))[x] == if x in failed then multiset(s)[x] else 0
  {
    if s != [] {
      assert s == [s[0]] + s[1..];
      FailedCount(s[1..], failed, x);
    }
  }

  /** After a broadcast to a chat, every socket whose send failed is listed
      twice as often as before and every other socket as often as before. */
  lemma BroadcastDuplicatesFailed(m: Manager, pid: int, failed: set<Socket>, x: Socket)
    requires pid in m.chats
    ensures var r := BroadcastToProblem(m, pid, failed).0;
            pid in r.chats && multiset(r.chats[pid])[x] == (if x in failed then 2 else 1) * multiset(m.chats[pid])[x]
  {
    FailedCount(m.chats[pid], failed, x);
  }

  // ===========================================================================
  // Problem-list connections
  // ===========================================================================

  /** `connect_global`: an admin socket joins the admins, any other socket the
      list of its own user. */
  function ConnectGlobal(m: Manager, ws: Socket, userId: int, isAdmin: bool): (r: Manager)
    ensures r.chats == m.chats
    ensures isAdmin ==> r.admins == m.admins + [ws] && r.users == m.users
    ensures !isAdmin ==> r.admins == m.admins && userId in r.users && r.users[userId] == ListAt(m.users, userId) + [ws]
    ensures Elsewhere(r.users, m.users, userId)
  {
    if isAdmin then m.(admins := m.admins + [ws])
    else m.(users := m.users[userId := ListAt(m.users, userId) + [ws]])
  }

  /** `disconnect_global`: the socket leaves the admins or its user's list; a
      user's list is kept even when it becomes empty. */
  function DisconnectGlobal(m: Manager, ws: Socket, userId: int, isAdmin: bool): (r: Manager)
    ensures r.chats == m.chats
    ensures isAdmin ==> r.users == m.users && multiset(r.admins) == multiset(m.admins) - multiset{ws}
    ensures !isAdmin ==> r.admins == m.admins && r.users.Keys == m.users.Keys
    ensures !isAdmin && userId in m.users ==> multiset(r.users[userId]) == multiset(m.users[userId]) - multiset{ws}
    ensures isAdmin ==> r.admins == RemoveFirst(m.admins, ws)
    ensures !isAdmin && userId in m.users ==> r.users[userId] == RemoveFirst(m.users[userId], ws)
    ensures forall u :: u != userId && u in m.users ==> r.users[u] == m.users[u]
    ensures isAdmin && ws !in m.admins ==> r == m
    ensures !isAdmin && (userId !in m.users || ws !in m.users[userId]) ==> r == m
  {
    if isAdmin then
      if ws in m.admins then m.(admins := RemoveFirst(m.admins, ws)) else m
    else if userId in m.users && ws in m.users[userId] then
      m.(users := m.users[userId := RemoveFirst(m.users[userId], ws)])
    else m
  }

  /** A socket that connects and disconnects leaves the registry as it was,
      except that a user who had no list keeps an empty one. */
  lemma GlobalRoundTrip(m: Manager, ws: Socket, userId: int, isAdmin: bool)
    requires isAdmin ==> ws !in m.admins
    requires !isAdmin ==> ws !in ListAt(m.users, userId)
    ensures var r := DisconnectGlobal(ConnectGlobal(m, ws, userId, isAdmin), ws, userId, isAdmin);
            && (isAdmin || userId in m.users ==> r == m)
            && (!isAdmin && userId !in m.users ==> r == m.(users := m.users[userId := []]))
  {
    if isAdmin {
      RemoveAppended(m.admins, ws);
    } else {
      RemoveAppended(ListAt(m.users, userId), ws);
    }
  }

  /** One message a broadcast sends. */
  datatype Delivery = Delivery(to: Socket, kind: string, data: ProblemView)

  /** The sockets a problem broadcast reaches: every admin socket, then every
      socket of the problem's owner. */
  function Recipients(m: Manager, owner: int): (r: seq<Socket>)
    ensures forall s :: s in r <==> s in m.admins || (owner in m.users && s in m.users[owner])
    ensures |r| == |m.admins| + |ListAt(m.users, owner)|
  {
    m.admins + ListAt(m.users, owner)
  }

  /** One message of type `kind` carrying the problem to each recipient. A
      failed send is only logged, so the registry is not changed. */
  function Announce(m: Manager, kind: string, v: ProblemView): (r: seq<Delivery>)
    ensures |r| == |Recipients(m, v.problem.userId)|
    ensures forall i :: 0 <= i < |r| ==> r[i].kind == kind && r[i].data == v
    ensures forall s :: (exists i :: 0 <= i < |r| && r[i].to == s) <==>
                        s in m.admins || (v.problem.userId in m.users && s in m.users[v.problem.userId])
  {
    var to := Recipients(m, v.problem.userId);
    var r := seq(|to|, i requires 0 <= i < |to| => Delivery(to[i], kind, v));
    assert forall s :: s in to ==> exists i :: 0 <= i < |r| && r[i].to == s by {
      forall s | s in to
        ensures exists i :: 0 <= i < |r| && r[i].to == s
      {
        var i :| 0 <= i < |to| && to[i] == s;
        assert r[i].to == s;
      }
    }
    r
  }

  /** `broadcast_new_problem`. */
  function BroadcastNewProblem(m: Manager, v: ProblemView): (r: seq<Delivery>)
    ensures forall i :: 0 <= i < |r| ==> r[i].kind == "new_problem" && r[i].data == v
    ensures forall s :: (exists i :: 0 <= i < |r| && r[i].to == s) <==>
                        s in m.admins || (v.problem.userId in m.users && s in m.users[v.problem.userId])
  {
    Announce(m, "new_problem", v)
  }

  /** `broadcast_problem_update`. */
  function BroadcastProblemUpdate(m: Manager, v: ProblemView): (r: seq<Delivery>)
    ensures forall i :: 0 <= i < |r| ==> r[i].kind == "update_problem" && r[i].data == v
    ensures forall s :: (exists i :: 0 <= i < |r| && r[i].to == s) <==>
                        s in m.admins || (v.problem.userId in m.users && s in m.users[v.problem.userId])
  {
    Announce(m, "update_problem", v)
  }
}
