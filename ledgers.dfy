/** The foreign ledgers the treasury calls: the native currency (free balances
    and balances on hold) and the multi-asset ledger. Each primitive either
    succeeds with a new ledger or fails and changes nothing. */
module Ledgers {
  import opened Types

  /** A missing key is a zero balance. */
  datatype Ledger = Ledger(
    native: map<AccountId, Balance>,
    onHold: map<AccountId, Balance>,
    fungibles: map<(AssetId, AccountId), Balance>)

  function Get<K>(m: map<K, Balance>, k: K): Balance
  {
    if k in m then m[k] else 0
  }

  /** Moves `amount` from `from` to `to` inside one balance map; fails when `from` holds less. */
  function Move<K(!new)>(m: map<K, Balance>, from: K, to: K, amount: Balance): (r: Option<map<K, Balance>>)
    ensures r.None? <==> Get(m, from) < amount
    ensures r.Some? && from != to ==>
      Get(r.value, from) == Get(m, from) - amount && Get(r.value, to) == Get(m, to) + amount
    ensures r.Some? && from == to ==> Get(r.value, from) == Get(m, from)
    ensures r.Some? ==> forall k :: k != from && k != to ==> Get(r.value, k) == Get(m, k)
  {
    if Get(m, from) < amount then None
    else
      var debited := m[from := Get(m, from) - amount];
      Some(debited[to := Get(debited, to) + amount])
  }

  /** What an account holds of an asset, read from the native ledger when the
      asset is the native one and from the multi-asset ledger otherwise. */
  function BalanceOf(nativeId: AssetId, l: Ledger, asset: AssetId, who: AccountId): Balance
  {
    if asset == nativeId then Get(l.native, who) else Get(l.fungibles, (asset, who))
  }

  /** `NativeBalance::transfer` */
  function TransferNative(l: Ledger, from: AccountId, to: AccountId, amount: Balance): (r: Option<Ledger>)
    ensures r.None? <==> Get(l.native, from) < amount
    ensures r.Some? && from != to ==>
      Get(r.value.native, from) == Get(l.native, from) - amount && Get(r.value.native, to) == Get(l.native, to) + amount
    ensures r.Some? && from == to ==> Get(r.value.native, from) == Get(l.native, from)
    ensures r.Some? ==> forall w :: w != from && w != to ==> Get(r.value.native, w) == Get(l.native, w)
    ensures r.Some? ==> r.value.fungibles == l.fungibles && r.value.onHold == l.onHold
  {
    match Move(l.native, from, to, amount)
    case None => None
    case Some(m) => Some(l.(native := m))
  }

  /** `Fungibles::transfer`, on the multi-asset ledger whatever the asset id. */
  function TransferAsset(l: Ledger, asset: AssetId, from: AccountId, to: AccountId, amount: Balance): (r: Option<Ledger>)
    ensures r.None? <==> Get(l.fungibles, (asset, from)) < amount
    ensures r.Some? && from != to ==>
      && Get(r.value.fungibles, (asset, from)) == Get(l.fungibles, (asset, from)) - amount
      && Get(r.value.fungibles, (asset, to)) == Get(l.fungibles, (asset, to)) + amount
    ensures r.Some? && from == to ==> Get(r.value.fungibles, (asset, from)) == Get(l.fungibles, (asset, from))
    ensures r.Some? ==> forall a: AssetId, w: AccountId :: (a, w) != (asset, from) && (a, w) != (asset, to) ==>
      Get(r.value.fungibles, (a, w)) == Get(l.fungibles, (a, w))
    ensures r.Some? ==> r.value.native == l.native && r.value.onHold == l.onHold
  {
    match Move(l.fungibles, (asset, from), (asset, to), amount)
    case None => None
    case Some(m) => Some(l.(fungibles := m))
  }

  /** A payment in `asset`: a native transfer when the asset is the native one,
      a multi-asset transfer otherwise. It moves exactly `amount` or nothing. */
  function Transfer(nativeId: AssetId, l: Ledger, asset: AssetId, from: AccountId, to: AccountId, amount: Balance): (r: Option<Ledger>)
    ensures r.None? <==> BalanceOf(nativeId, l, asset, from) < amount
    ensures r.Some? ==> r.value.onHold == l.onHold
    ensures r.Some? && asset == nativeId ==> r.value.fungibles == l.fungibles
    ensures r.Some? && asset != nativeId ==> r.value.native == l.native
    ensures r.Some? && from != to ==>
      && BalanceOf(nativeId, r.value, asset, from) == BalanceOf(nativeId, l, asset, from) - amount
      && BalanceOf(nativeId, r.value, asset, to) == BalanceOf(nativeId, l, asset, to) + amount
    ensures r.Some? && from == to ==> BalanceOf(nativeId, r.value, asset, from) == BalanceOf(nativeId, l, asset, from)
    ensures r.Some? ==> forall w :: w != from && w != to ==>
      BalanceOf(nativeId, r.value, asset, w) == BalanceOf(nativeId, l, asset, w)
    ensures r.Some? ==> forall a: AssetId, w: AccountId :: a != asset ==>
      BalanceOf(nativeId, r.value, a, w) == BalanceOf(nativeId, l, a, w)
    ensures r.Some? ==> forall a: AssetId, w: AccountId :: a != asset ==>
      Get(r.value.fungibles, (a, w)) == Get(l.fungibles, (a, w))
  {
    if asset == nativeId then TransferNative(l, from, to, amount)
    else TransferAsset(l, asset, from, to, amount)
  }

  /** `NativeBalance::hold`: moves `amount` of free native balance on hold; fails when the account has less. */
  function Hold(l: Ledger, who: AccountId, amount: Balance): (r: Option<Ledger>)
    ensures r.None? <==> Get(l.native, who) < amount
    ensures r.Some? ==> Get(r.value.native, who) == Get(l.native, who) - amount
    ensures r.Some? ==> Get(r.value.onHold, who) == Get(l.onHold, who) + amount
    ensures r.Some? ==> r.value.fungibles == l.fungibles
    ensures r.Some? ==> forall w :: w != who ==>
      Get(r.value.native, w) == Get(l.native, w) && Get(r.value.onHold, w) == Get(l.onHold, w)
  {
    if Get(l.native, who) < amount then None
    else Some(l.(native := l.native[who := Get(l.native, who) - amount],
                 onHold := l.onHold[who := Get(l.onHold, who) + amount]))
  }

  /** `NativeBalance::release` with best-effort precision: releases what is on
      hold, up to `amount`, and never fails. */
  function Release(l: Ledger, who: AccountId, amount: Balance): (r: Ledger)
    ensures var released := if Get(l.onHold, who) < amount then Get(l.onHold, who) else amount;
      && Get(r.onHold, who) == Get(l.onHold, who) - released
      && Get(r.native, who) == Get(l.native, who) + released
    ensures r.fungibles == l.fungibles
    ensures forall w :: w != who ==> Get(r.native, w) == Get(l.native, w) && Get(r.onHold, w) == Get(l.onHold, w)
  {
    var released := if Get(l.onHold, who) < amount then Get(l.onHold, who) else amount;
    l.(native := l.native[who := Get(l.native, who) + released],
       onHold := l.onHold[who := Get(l.onHold, who) - released])
  }

  /** `mint_into` on the native or the multi-asset ledger, chosen by the asset id. */
  function Mint(nativeId: AssetId, l: Ledger, asset: AssetId, who: AccountId, amount: Balance): (r: Ledger)
    ensures BalanceOf(nativeId, r, asset, who) == BalanceOf(nativeId, l, asset, who) + amount
    ensures forall a: AssetId, w: AccountId :: (a, w) != (asset, who) ==> BalanceOf(nativeId, r, a, w) == BalanceOf(nativeId, l, a, w)
    ensures asset == nativeId ==> r.fungibles == l.fungibles
    ensures asset != nativeId ==> r.native == l.native
    ensures forall a: AssetId, w: AccountId :: (a, w) != (asset, who) ==> Get(r.fungibles, (a, w)) == Get(l.fungibles, (a, w))
    ensures r.onHold == l.onHold
  {
    if asset == nativeId then l.(native := l.native[who := Get(l.native, who) + amount])
    else l.(fungibles := l.fungibles[(asset, who) := Get(l.fungibles, (asset, who)) + amount])
  }

  /** `burn_from` on the native or the multi-asset ledger, chosen by the asset
      id, removing the `burned` amount the foreign ledger reports. */
  function Burn(nativeId: AssetId, l: Ledger, asset: AssetId, who: AccountId, burned: Balance): (r: Ledger)
    requires burned <= BalanceOf(nativeId, l, asset, who)
    ensures BalanceOf(nativeId, r, asset, who) == BalanceOf(nativeId, l, asset, who) - burned
    ensures forall a: AssetId, w: AccountId :: (a, w) != (asset, who) ==> BalanceOf(nativeId, r, a, w) == BalanceOf(nativeId, l, a, w)
    ensures asset == nativeId ==> r.fungibles == l.fungibles
    ensures asset != nativeId ==> r.native == l.native
    ensures forall a: AssetId, w: AccountId :: (a, w) != (asset, who) ==> Get(r.fungibles, (a, w)) == Get(l.fungibles, (a, w))
    ensures r.onHold == l.onHold
  {
    if asset == nativeId then l.(native := l.native[who := Get(l.native, who) - burned])
    else l.(fungibles := l.fungibles[(asset, who) := Get(l.fungibles, (asset, who)) - burned])
  }
}
