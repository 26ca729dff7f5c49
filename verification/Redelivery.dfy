/** Delivering the chain's events more than once in a row. */
module Redelivery {
  import opened Borsh
  import opened Accounts
  import opened Protocol
  import opened LienTable
  import opened Webhook
  import opened IndexAgreement

  /** Delivering the same payload again changes nothing, whatever it is. */
  lemma DeliverTwice(t: Table, bytes: Bytes, at: Time, again: Time)
    requires UniqueActive(t)
    ensures Deliver(Deliver(t, bytes, at), bytes, again) == Deliver(t, bytes, at)
  {
    if |bytes| >= 8 && bytes[..8] == DISC_ENCUMBRANCE_REGISTERED {
      var r := DecodeRegistered(bytes[8..]);
      if r.Some? {
        InsertTwice(t, IndexedLien(r.value), at, again);
      }
    } else if |bytes| >= 8 && bytes[..8] == DISC_ENCUMBRANCE_RELEASED {
      var r := DecodeKeyed(bytes[8..]);
      if r.Some? {
        ReleaseTwice(t, Base58(r.value.key), r.value.cadastral, at, again);
      }
    }
  }

  lemma InsertTwice(t: Table, lien: Lien, at: Time, again: Time)
    ensures Insert(Insert(t, lien, at), lien, again) == Insert(t, lien, at)
  {
    if InsertError(t, lien) == None {
      assert IsActiveFor(Insert(t, lien, at).rows[|t.rows|], lien.cadastral);
    }
  }

  lemma ReleaseTwice(t: Table, wallet: Wallet, cadastral: Bytes, at: Time, again: Time)
    requires UniqueActive(t)
    ensures ReleaseByWallet(ReleaseByWallet(t, wallet, cadastral, at), wallet, cadastral, again)
            == ReleaseByWallet(t, wallet, cadastral, at)
  {
    var t' := ReleaseByWallet(t, wallet, cadastral, at);
    var id := FindByWallet(t.rows, wallet, cadastral);
    if id.Some? && 0 !in cadastral {
      forall i | 0 <= i < |t'.rows|
        ensures !IsActiveFor(t'.rows[i], cadastral)
      {
        assert i != id.value ==> t'.rows[i] == t.rows[i];
      }
      assert FindByWallet(t'.rows, wallet, cadastral) == None;
    }
  }

  lemma DeliverKeepsSafe(t: Table, bytes: Bytes, at: Time)
    requires Safe(t)
    ensures Safe(Deliver(t, bytes, at))
  {
    if |bytes| >= 8 {
      var r, k := DecodeRegistered(bytes[8..]), DecodeKeyed(bytes[8..]);
      if r.Some? {
        InsertKeepsSafe(t, IndexedLien(r.value), at);
      }
      if k.Some? && FindByWallet(t.rows, Base58(k.value.key), k.value.cadastral).Some? {
        ReleaseKeepsSafe(t, FindByWallet(t.rows, Base58(k.value.key), k.value.cadastral).value, at);
      }
    }
  }

  /** One payload delivered at least once, and possibly again. */
  datatype Burst = Burst(bytes: Bytes, first: Time, again: seq<Time>)

  function Expand(b: Burst): seq<Delivery>
    decreases |b.again|
  {
    if b.again == [] then [Delivery(b.bytes, b.first)]
    else Expand(b.(again := b.again[..|b.again| - 1])) + [Delivery(b.bytes, b.again[|b.again| - 1])]
  }

  function Flatten(bursts: seq<Burst>): seq<Delivery> {
    if bursts == [] then [] else Flatten(bursts[..|bursts| - 1]) + Expand(bursts[|bursts| - 1])
  }

  function Firsts(bursts: seq<Burst>): seq<Delivery> {
    seq(|bursts|, i requires 0 <= i < |bursts| => Delivery(bursts[i].bytes, bursts[i].first))
  }

  lemma {:induction false} ReplayAppend(t: Table, ds: seq<Delivery>, more: seq<Delivery>)
    ensures Replay(t, ds + more) == Replay(Replay(t, ds), more)
  {
    if more == [] {
      assert ds + more == ds;
    } else {
      ReplayAppend(t, ds, more[..|more| - 1]);
      assert (ds + more)[..|ds + more| - 1] == ds + more[..|more| - 1];
    }
  }

  lemma {:induction false} ReplayBurst(t: Table, b: Burst)
    requires UniqueActive(t)
    ensures Replay(t, Expand(b)) == Deliver(t, b.bytes, b.first)
    decreases |b.again|
  {
    if b.again == [] {
      assert Expand(b)[..0] == [];
    } else {
      var init, last := b.(again := b.again[..|b.again| - 1]), b.again[|b.again| - 1];
      ReplayBurst(t, init);
      assert Expand(b)[..|Expand(init)|] == Expand(init);
      DeliverTwice(t, b.bytes, b.first, last);
    }
  }

  /** Delivery is insensitive to stuttering: repeating each payload any number of
      times in a row gives the table of delivering it once. */
  lemma {:induction false} StutteringIsHarmless(t: Table, bursts: seq<Burst>)
    requires Safe(t)
    ensures Replay(t, Flatten(bursts)) == Replay(t, Firsts(bursts))
    ensures Safe(Replay(t, Flatten(bursts)))
  {
    if bursts == [] {
      assert Flatten(bursts) == Firsts(bursts) == [];
    } else {
      var init, b := bursts[..|bursts| - 1], bursts[|bursts| - 1];
      var stuttered, singles := Flatten(init), Firsts(init);
      assert Flatten(bursts) == stuttered + Expand(b);
      assert Firsts(bursts) == singles + [Delivery(b.bytes, b.first)];
      StutteringIsHarmless(t, init);
      StutterStep(t, stuttered, singles, b);
    }
  }

  lemma StutterStep(t: Table, stuttered: seq<Delivery>, singles: seq<Delivery>, b: Burst)
    requires Safe(Replay(t, stuttered)) && Replay(t, stuttered) == Replay(t, singles)
    ensures Replay(t, stuttered + Expand(b)) == Replay(t, singles + [Delivery(b.bytes, b.first)])
    ensures Safe(Replay(t, stuttered + Expand(b)))
  {
    ReplayAppend(t, stuttered, Expand(b));
    ReplayAppend(t, singles, [Delivery(b.bytes, b.first)]);
    BurstIsOne(Replay(t, stuttered), b);
  }

  lemma BurstIsOne(t: Table, b: Burst)
    requires Safe(t)
    ensures Replay(t, Expand(b)) == Replay(t, [Delivery(b.bytes, b.first)]) && Safe(Replay(t, Expand(b)))
  {
    ReplayBurst(t, b);
    DeliverKeepsSafe(t, b.bytes, b.first);
    assert [Delivery(b.bytes, b.first)][..0] == [];
  }

  /** However often each event of a world is delivered in a row, the table is one
      that single deliveries rebuild, so all that is proved of those holds of it. */
  lemma StutteredReplayRebuilds(w: World, bursts: seq<Burst>, render: Address -> Pubkey, parcelIds: set<Uuid>)
    requires Carries(Firsts(bursts), Emitted(w.log), render)
    ensures var t := Replay(Table(parcelIds, []), Flatten(bursts));
            Rebuilt(w, t, render) && t.parcelIds == parcelIds
  {
    StutteringIsHarmless(Table(parcelIds, []), bursts);
    ReplayKeepsParcels(Table(parcelIds, []), Firsts(bursts));
    assert RebuiltBy(w, Replay(Table(parcelIds, []), Flatten(bursts)), Firsts(bursts), render);
  }

  /** In every reachable world, then, the same exact condition for agreement. */
  lemma StutteredReplayAgreesIff(w: World, bursts: seq<Burst>, render: Address -> Pubkey, parcelIds: set<Uuid>,
                                 c: Bytes)
    requires Reachable(w) && Carries(Firsts(bursts), Emitted(w.log), render)
    ensures AgreeAt(w.state, Replay(Table(parcelIds, []), Flatten(bursts)), c)
            <==> (ZERO_UUID in parcelIds && 0 !in c) || TotalCount(w.state, ParcelPda(c)) == 0
  {
    StutteredReplayRebuilds(w, bursts, render, parcelIds);
    ReplayAgreesIff(w, Replay(Table(parcelIds, []), Flatten(bursts)), render, c);
  }
}
