// In every run the clients' flags agree with the server's records, so that what the
// clients check is what the handlers rely on.
module ConferenceProof {
  import opened Users
  import opened Sessions
  import opened Conference

  // ----- agreement -----

  /** No mutex is held between two requests, and no handler has used a missing user. */
  predicate ServerOk(s: Server) { !s.listLocked && !s.rwLocked && !s.faulted }

  /** A logged-in client and its connection agree with the record of its user; any other
      client has no session and no role. */
  ghost predicate PeerOk(t: Table, fd: int, p: Peer) {
    && p.conn.online == p.client.verified == p.client.connected
    && if p.client.verified then
         var k := Search(t, p.client.name);
         p.conn.source == p.client.name && k < |t| && t[k].online && t[k].fd == fd
         && t[k].inSession == p.client.session && t[k].role == p.client.role
       else !p.client.session && p.client.role == Ordinary
  }

  /** The socket of an online user is that of a client logged in as this user. */
  ghost predicate RecordOk(u: User, peers: map<int, Peer>) {
    u.online ==> u.fd in peers && peers[u.fd].client.verified && peers[u.fd].client.name == u.name
  }

  ghost predicate Agree(w: World) {
    && ServerOk(w.server) && TableInv(w.server.users) && 0 !in w.peers
    && (forall x :: x in w.peers ==> PeerOk(w.server.users, x, w.peers[x]))
    && (forall i :: 0 <= i < |w.server.users| ==> RecordOk(w.server.users[i], w.peers))
  }

  // ----- delivery -----

  lemma InboxOne(c: Client, x: int, r: Reply)
    ensures Inbox(c, x, [r]) == if r.fd == x && c.connected then OnMessage(c, r) else c
  {
    assert [r][..0] == [];
  }

  lemma InboxTwo(c: Client, x: int, r1: Reply, r2: Reply)
    ensures Inbox(c, x, [r1, r2])
         == var c1 := if r1.fd == x && c.connected then OnMessage(c, r1) else c;
            if r2.fd == x && c1.connected then OnMessage(c1, r2) else c1
  {
    InboxOne(c, x, r1);
    assert [r1, r2][..1] == [r1];
  }

  /** Messages that only print something. */
  predicate Harmless(r: Reply) { r.kind == MESSAGE || r.kind == QU_ACK || r.kind == SQ_ACK || r.kind == SQ_NAK }

  lemma {:induction false} InboxHarmless(c: Client, x: int, replies: seq<Reply>)
    requires forall i :: 0 <= i < |replies| ==> Harmless(replies[i])
    ensures Inbox(c, x, replies) == c
  {
    if replies != [] {
      InboxHarmless(c, x, replies[..|replies| - 1]);
    }
  }

  /** Every socket that gets a notice belongs to an admin, and every admin gets one. */
  lemma {:induction false} NoticesReach(t: Table, c: Client, x: int)
    requires c.connected
    ensures Inbox(c, x, AdminNotices(t))
         == if exists i :: 0 <= i < |t| && t[i].role == Admin && t[i].fd == x then c.(role := Admin) else c
  {
    if t != [] {
      var n := |t| - 1;
      NoticesReach(t[..n], c, x);
      if t[n].role == Admin {
        var out := AdminNotices(t);
        assert out[..|out| - 1] == AdminNotices(t[..n]);
      } else {
        assert AdminNotices(t) == AdminNotices(t[..n]);
      }
      if i :| 0 <= i < n && t[i].role == Admin && t[i].fd == x {
        assert t[..n][i] == t[i];
      }
    }
  }

  lemma {:induction false} InboxClosed(c: Client, x: int, replies: seq<Reply>)
    requires !c.connected
    ensures Inbox(c, x, replies) == c
  {
    if replies != [] {
      InboxClosed(c, x, replies[..|replies| - 1]);
    }
  }

  // ----- keeping agreement -----

  lemma SearchSameNames(t: Table, t': Table, name: string)
    requires |t| == |t'| && forall i :: 0 <= i < |t| ==> t'[i].name == t[i].name
    ensures Search(t', name) == Search(t, name)
  {
    var k := Search(t, name);
    assert k < |t| ==> t'[k].name == name;
  }

  /** Two logged-in clients are two users. */
  lemma Distinct(w: World, x: int, y: int)
    requires Agree(w) && x in w.peers && y in w.peers && x != y
    requires w.peers[x].client.verified && w.peers[y].client.verified
    ensures Search(w.server.users, w.peers[x].client.name) != Search(w.server.users, w.peers[y].client.name)
  {
    assert PeerOk(w.server.users, x, w.peers[x]) && PeerOk(w.server.users, y, w.peers[y]);
  }

  /** The client behind the socket of an online user. */
  lemma OwnerOf(w: World, i: nat)
    requires Agree(w) && i < |w.server.users| && w.server.users[i].online
    ensures var x := w.server.users[i].fd;
            x in w.peers && w.peers[x].client.verified && w.peers[x].client.connected
            && Search(w.server.users, w.peers[x].client.name) == i
            && w.peers[x].client.session == w.server.users[i].inSession
            && w.peers[x].client.role == w.server.users[i].role
  {
    var x := w.server.users[i].fd;
    assert RecordOk(w.server.users[i], w.peers);
    SearchFinds(w.server.users, i);
    assert PeerOk(w.server.users, x, w.peers[x]);
  }

  /** Steps that only move users between sessions and change roles: it is enough that
      each client's two flags follow its own record. */
  lemma AgreeByFlags(w: World, v: World)
    requires Agree(w) && ServerOk(v.server) && TableInv(v.server.users)
    requires |v.server.users| == |w.server.users| && v.peers.Keys == w.peers.Keys
    requires forall i :: 0 <= i < |w.server.users| ==>
               v.server.users[i].name == w.server.users[i].name
               && v.server.users[i].online == w.server.users[i].online
               && v.server.users[i].fd == w.server.users[i].fd
    requires forall x :: x in w.peers ==> Follows(w, v, x)
    ensures Agree(v)
  {
    hide Search, TableInv;
    var t, t' := w.server.users, v.server.users;
    forall x | x in v.peers ensures PeerOk(t', x, v.peers[x]) {
      assert Follows(w, v, x) && PeerOk(t, x, w.peers[x]);
      SearchSameNames(t, t', w.peers[x].client.name);
    }
    forall i | 0 <= i < |t'| ensures RecordOk(t'[i], v.peers) {
      assert RecordOk(t[i], w.peers);
      if t[i].online { assert Follows(w, v, t[i].fd); }
    }
  }

  ghost predicate Follows(w: World, v: World, x: int)
    requires x in w.peers
  {
    x in v.peers && v.peers[x].conn == w.peers[x].conn &&
    var c, c' := w.peers[x].client, v.peers[x].client;
    var k := Search(w.server.users, c.name);
    c'.name == c.name && c'.connected == c.connected && c'.verified == c.verified
    && if c.verified && k < |v.server.users|
       then c'.session == v.server.users[k].inSession && c'.role == v.server.users[k].role
       else c' == c
  }

  /** Steps that sign one user on or off: the only record touched is that of `fd`. */
  lemma AgreeByRecord(w: World, v: World, fd: int, k: nat)
    requires Agree(w) && ServerOk(v.server) && TableInv(v.server.users)
    requires fd in w.peers && v.peers.Keys == w.peers.Keys
    requires forall x :: x in w.peers && x != fd ==> v.peers[x] == w.peers[x]
    requires k < |w.server.users| && |v.server.users| == |w.server.users|
    requires forall i :: 0 <= i < |w.server.users| && i != k ==> v.server.users[i] == w.server.users[i]
    requires v.server.users[k].name == w.server.users[k].name
    requires w.server.users[k].online ==> w.server.users[k].fd == fd
    requires w.peers[fd].client.verified ==> Search(w.server.users, w.peers[fd].client.name) == k
    requires PeerOk(v.server.users, fd, v.peers[fd]) && RecordOk(v.server.users[k], v.peers)
    ensures Agree(v)
  {
    hide Search, TableInv;
    var t, t' := w.server.users, v.server.users;
    forall x | x in v.peers ensures PeerOk(t', x, v.peers[x]) {
      if x != fd {
        assert PeerOk(t, x, w.peers[x]);
        SearchSameNames(t, t', w.peers[x].client.name);
      }
    }
    forall i | 0 <= i < |t'| ensures RecordOk(t'[i], v.peers) {
      if i != k {
        assert RecordOk(t[i], w.peers);
        if t[i].online { OwnerOf(w, i); }
      }
    }
  }
}
