// The forwarder's tunnel manager: string keys and the maps of running tunnels (pkg/forwarder/reconciler.go).
module Tunnels {
  import opened Text

  datatype Endpoints = Endpoints(local: string, server: string, remote: string)

  function Endpoint(host: string, port: string): string {
    host + ":" + port
  }

  /** The six components as getExpectedSSHTunnel prints them */
  function TunnelKey(a: string, b: string, c: string, d: string, e: string, f: string): string {
    Join([a, b, c, d, e, f], ':')
  }

  lemma SixJoined(a: string, b: string, c: string, d: string, e: string, f: string)
    ensures TunnelKey(a, b, c, d, e, f) == a + ":" + b + ":" + c + ":" + d + ":" + e + ":" + f
  {
    assert [a, b, c, d, e, f][1..] == [b, c, d, e, f] && [b, c, d, e, f][1..] == [c, d, e, f];
    assert [c, d, e, f][1..] == [d, e, f] && [d, e, f][1..] == [e, f] && [e, f][1..] == [f];
    assert Join([e, f], ':') == e + ":" + f;
    assert Join([d, e, f], ':') == d + ":" + (e + ":" + f);
    assert Join([c, d, e, f], ':') == c + ":" + Join([d, e, f], ':');
    assert Join([b, c, d, e, f], ':') == b + ":" + Join([c, d, e, f], ':');
  }

  /** toTunnel would run past the end of a key with fewer parts. */
  predicate HasSixParts(key: string) {
    |Split(key, ':')| >= 6
  }

  function ToEndpoints(key: string): Endpoints
    requires HasSixParts(key)
  {
    var s := Split(key, ':');
    Endpoints(Endpoint(s[0], s[1]), Endpoint(s[2], s[3]), Endpoint(s[4], s[5]))
  }

  /** A printed key is always safe to parse, and parsing returns the printed endpoints exactly when no
      component contains a colon. */
  lemma KeyRoundTrip(a: string, b: string, c: string, d: string, e: string, f: string)
    ensures var key := TunnelKey(a, b, c, d, e, f);
            && HasSixParts(key)
            && (ToEndpoints(key) == Endpoints(Endpoint(a, b), Endpoint(c, d), Endpoint(e, f)) <==>
                ':' !in a && ':' !in b && ':' !in c && ':' !in d && ':' !in e && ':' !in f)
  {
    var key := TunnelKey(a, b, c, d, e, f);
    SplitOfJoinCount([a, b, c, d, e, f], ':');
    var s := Split(key, ':');
    if ToEndpoints(key) == Endpoints(Endpoint(a, b), Endpoint(c, d), Endpoint(e, f)) {
      OnlySeparatorDecides(s[0], s[1], a, b, ':');
      OnlySeparatorDecides(s[2], s[3], c, d, ':');
      OnlySeparatorDecides(s[4], s[5], e, f, ':');
    }
    if ':' !in a && ':' !in b && ':' !in c && ':' !in d && ':' !in e && ':' !in f {
      SplitOfJoin([a, b, c, d, e, f], ':');
    }
  }

  class Tunnel {
    const ends: Endpoints
    /** How often it was started to listen at its local end and dial the remote one, and the other way round */
    var forwards: nat
    var remoteForwards: nat
    var cancels: nat

    /** NewTunnel */
    constructor (ends: Endpoints)
      ensures this.ends == ends && forwards == 0 && remoteForwards == 0 && cancels == 0
    {
      this.ends := ends;
      forwards, remoteForwards, cancels := 0, 0, 0;
    }

    method ForwardNB()
      modifies this
      ensures forwards == old(forwards) + 1 && remoteForwards == old(remoteForwards) && cancels == old(cancels)
    {
      forwards := forwards + 1;
    }

    method RemoteForwardNB()
      modifies this
      ensures remoteForwards == old(remoteForwards) + 1 && forwards == old(forwards) && cancels == old(cancels)
    {
      remoteForwards := remoteForwards + 1;
    }

    /** Started once, in this direction only */
    ghost predicate Started(remote: bool)
      reads this
    {
      if remote then remoteForwards == 1 && forwards == 0 else forwards == 1 && remoteForwards == 0
    }

    method Cancel()
      modifies this
      ensures cancels == old(cancels) + 1 && forwards == old(forwards) && remoteForwards == old(remoteForwards)
    {
      cancels := cancels + 1;
    }
  }

  /** One of the two maps of a forwarder, with the ledger of every tunnel it ever made */
  class TunnelMap {
    /** Whether it is the map of the remote tunnels */
    const remote: bool
    var tunnels: map<string, Tunnel>
    ghost var made: set<Tunnel>
    /** Tunnels whose entry was lost from the map while they ran; nothing the agent does loses one. */
    ghost var orphans: set<Tunnel>

    /** Started and not cancelled are exactly the tunnels in the map and the orphans; none is started or cancelled
        twice, or started the other way; each in the map leads where its key says. */
    ghost predicate Valid()
      reads this, made
    {
      && tunnels.Values <= made && orphans <= made && orphans !! tunnels.Values
      && (forall k, l :: k in tunnels && l in tunnels && tunnels[k] == tunnels[l] ==> k == l)
      && (forall k :: k in tunnels ==> HasSixParts(k) && tunnels[k].ends == ToEndpoints(k))
      && (forall t :: t in made ==> t.Started(remote) && t.cancels == if t in tunnels.Values || t in orphans then 0 else 1)
    }

    constructor (remote: bool)
      ensures Valid() && this.remote == remote && tunnels == map[] && made == {} && orphans == {}
    {
      this.remote := remote;
      tunnels, made, orphans := map[], {}, {};
    }

    /** Drift: the entry for a key is lost while its tunnel goes on running. */
    method LoseEntry(key: string)
      requires Valid() && key in tunnels
      modifies this`tunnels, this`orphans
      ensures Valid() && tunnels == old(tunnels) - {key} && orphans == old(orphans) + {old(tunnels)[key]}
    {
      hide HasSixParts, ToEndpoints;
      ghost var lost := tunnels[key];
      Kept(tunnels, map k | k in tunnels && k !in {key} :: tunnels[k], {key});
      assert tunnels - {key} == map k | k in tunnels && k !in {key} :: tunnels[k];
      tunnels := tunnels - {key};
      orphans := orphans + {lost};
      forall t | t in made ensures t.cancels == if t in tunnels.Values || t in orphans then 0 else 1 {
        if t in old(tunnels).Values {
          var k :| k in old(tunnels) && old(tunnels)[k] == t;
        }
      }
    }

    /** The first loop of deleteUnusedSSHTunnel: cancel what is no longer expected */
    method CancelUnused(expected: set<string>) returns (deleted: set<string>)
      requires Valid()
      modifies made
      ensures deleted == tunnels.Keys - expected
      ensures forall t :: t in made ==> t.Started(remote)
      ensures forall k :: k in tunnels ==> tunnels[k].cancels == if k in deleted then 1 else 0
      ensures forall t :: t in made && t !in tunnels.Values ==> t.cancels == if t in orphans then 0 else 1
    {
      hide HasSixParts, ToEndpoints;
      deleted := {};
      var todo := tunnels.Keys;
      while todo != {}
        invariant todo <= tunnels.Keys && deleted == (tunnels.Keys - todo) - expected
        invariant forall t :: t in made ==> t.Started(remote)
        invariant forall k :: k in tunnels ==> tunnels[k].cancels == if k in deleted then 1 else 0
        invariant forall t :: t in made && t !in tunnels.Values ==> t.cancels == if t in orphans then 0 else 1
      {
        var k :| k in todo;
        if k !in expected {
          tunnels[k].Cancel();
          deleted := deleted + {k};
        }
        todo := todo - {k};
      }
    }

    /** Its second loop: drop the cancelled tunnels from the map */
    method Drop(deleted: set<string>)
      modifies this`tunnels
      ensures tunnels == map k | k in old(tunnels) && k !in deleted :: old(tunnels)[k]
    {
      var rest := deleted;
      while rest != {}
        invariant rest <= deleted
        invariant tunnels == map k | k in old(tunnels) && k !in deleted - rest :: old(tunnels)[k]
      {
        var d :| d in rest;
        tunnels := map k | k in tunnels && k != d :: tunnels[k];
        rest := rest - {d};
      }
    }

    /** deleteUnusedSSHTunnel */
    method DeleteUnused(expected: set<string>)
      requires Valid()
      modifies this`tunnels, made
      ensures Valid()
      ensures tunnels == map k | k in old(tunnels) && k in expected :: old(tunnels)[k]
    {
      var deleted := CancelUnused(expected);
      Drop(deleted);
      Kept(old(tunnels), tunnels, deleted);
      forall t | t in made ensures t.cancels == if t in tunnels.Values || t in orphans then 0 else 1 {
        if t in old(tunnels).Values {
          var k :| k in old(tunnels) && old(tunnels)[k] == t;
          assert t in tunnels.Values <==> k !in deleted;
        }
      }
    }

    lemma Kept(before: map<string, Tunnel>, after: map<string, Tunnel>, deleted: set<string>)
      requires after == map k | k in before && k !in deleted :: before[k]
      requires forall k, l :: k in before && l in before && before[k] == before[l] ==> k == l
      ensures after.Values <= before.Values
      ensures forall k :: k in before ==> (before[k] in after.Values <==> k !in deleted)
    {
      forall k | k in before ensures before[k] in after.Values <==> k !in deleted {
        if k !in deleted {
          assert after[k] == before[k];
        }
      }
    }

    /** The first loop of ensureSSHTunnel: start what is missing */
    method CreateMissing(expected: set<string>) returns (created: map<string, Tunnel>)
      requires forall k :: k in expected ==> HasSixParts(k)
      ensures created.Keys == expected - tunnels.Keys
      ensures fresh(created.Values) && Distinct(created) && AllRunning(created, remote)
    {
      created := map[];
      var todo := expected;
      while todo != {}
        invariant todo <= expected
        invariant created.Keys == (expected - todo) - tunnels.Keys
        invariant fresh(created.Values) && Distinct(created) && AllRunning(created, remote)
      {
        var k :| k in todo;
        if k !in tunnels {
          var t := new Tunnel(ToEndpoints(k));
          if remote {
            t.RemoteForwardNB();
          } else {
            t.ForwardNB();
          }
          assert t !in created.Values;
          AddOne(created, k, t, remote);
          created := created[k := t];
        }
        todo := todo - {k};
      }
    }

    static ghost predicate Distinct(m: map<string, Tunnel>) {
      forall k, l :: k in m && l in m && m[k] == m[l] ==> k == l
    }

    static ghost predicate AllRunning(m: map<string, Tunnel>, remote: bool)
      reads m.Values
    {
      forall k :: k in m ==>
        HasSixParts(k) && m[k].ends == ToEndpoints(k) && m[k].Started(remote) && m[k].cancels == 0
    }

    static lemma AddOne(m: map<string, Tunnel>, k: string, t: Tunnel, remote: bool)
      requires Distinct(m) && AllRunning(m, remote) && t !in m.Values && k !in m
      requires HasSixParts(k) && t.ends == ToEndpoints(k) && t.Started(remote) && t.cancels == 0
      ensures Distinct(m[k := t]) && AllRunning(m[k := t], remote) && m[k := t].Values == m.Values + {t}
    {
      var n := m[k := t];
      assert n[k] == t;
      forall u | u in m.Values ensures u in n.Values {
        var l :| l in m && m[l] == u;
        assert n[l] == u;
      }
    }

    /** ensureSSHTunnel: start what is missing, then add it to the map */
    method Ensure(expected: set<string>)
      requires Valid() && forall k :: k in expected ==> HasSixParts(k)
      modifies this
      ensures Valid() && old(made) <= made && fresh(made - old(made)) && orphans == old(orphans)
      ensures tunnels.Keys == old(tunnels).Keys + expected
      ensures forall k :: k in old(tunnels) ==> tunnels[k] == old(tunnels)[k]
      ensures forall k :: k in tunnels && k !in old(tunnels) ==> tunnels[k] !in old(made)
    {
      hide HasSixParts, ToEndpoints;
      var created := CreateMissing(expected);
      Merged(tunnels, created);
      tunnels := tunnels + created;
      made := made + created.Values;
    }

    lemma Merged(before: map<string, Tunnel>, created: map<string, Tunnel>)
      requires before.Keys !! created.Keys
      ensures (before + created).Values == before.Values + created.Values
    {
      var m := before + created;
      forall k | k in before ensures before[k] in m.Values { assert m[k] == before[k]; }
      forall k | k in created ensures created[k] in m.Values { assert m[k] == created[k]; }
    }

    /** updateSSHTunnel: afterwards the keys are the expected ones, and keys that stay keep their tunnel */
    method Update(expected: set<string>)
      requires Valid() && forall k :: k in expected ==> HasSixParts(k)
      modifies this, made
      ensures Valid() && old(made) <= made && fresh(made - old(made)) && orphans == old(orphans)
      ensures tunnels.Keys == expected
      ensures forall k :: k in expected && k in old(tunnels) ==> tunnels[k] == old(tunnels)[k]
      ensures forall k :: k in expected && k !in old(tunnels) ==> tunnels[k] !in old(made)
    {
      DeleteUnused(expected);
      Ensure(expected);
    }
  }
}
