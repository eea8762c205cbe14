/**
 * The mapping between the wallet's coin codes and the codes under which the
 * exchange-rate provider lists them: a few coins have no rate at all, and a
 * few are listed under another name.
 */
module RateCoinMapper {
  import opened Wrappers

  /** Codes for which no rate is looked up. */
  const DisabledCoins: seq<string> := ["EOSDT", "PGL", "PPT", "SAI", "WBTC", "WETH", "SWAP"]

  /** Wallet code -> code used by the rate provider. */
  const ConvertedCoins: map<string, string> := map["HOT" := "HOLO"]

  /** A coin; its `coinType` is carried along untouched, so it stays abstract. */
  datatype Coin<T> = Coin(id: string, title: string, code: string, decimal: int, coinType: T)

  /** The wallet codes that the rate provider lists under `providerCode`. */
  function Preimage(providerCode: string): set<string>
  {
    set k | k in ConvertedCoins && ConvertedCoins[k] == providerCode
  }

  /** `convert(coinCode:)`: the provider's code for a wallet code, or None for a disabled coin. */
  function ConvertCode(coinCode: string): (r: Option<string>)
    ensures r.None? <==> coinCode in DisabledCoins
    ensures r.Some? && coinCode in ConvertedCoins ==> r.value == ConvertedCoins[coinCode]
    ensures r.Some? && coinCode !in ConvertedCoins ==> r.value == coinCode
  {
    if coinCode in DisabledCoins then None
    else if coinCode in ConvertedCoins then Some(ConvertedCoins[coinCode])
    else Some(coinCode)
  }

  /**
   * `convert(coin:)`: None for a disabled coin; otherwise the same coin whose
   * code alone may have been renamed, in agreement with ConvertCode.
   */
  function ConvertCoin<T(==)>(coin: Coin<T>): (r: Option<Coin<T>>)
    ensures r.None? <==> ConvertCode(coin.code).None?
    ensures r.Some? ==> Some(r.value.code) == ConvertCode(coin.code)
    ensures r.Some? ==> r.value == coin.(code := r.value.code)
  {
    if coin.code in DisabledCoins then None
    else if coin.code in ConvertedCoins then
      Some(Coin(coin.id, coin.title, ConvertedCoins[coin.code], coin.decimal, coin.coinType))
    else Some(coin)
  }

  /**
   * `unconvert(coinCode:)`: the code itself first, followed by every wallet
   * code that the rename table sends to it, each once (in whatever order the
   * dictionary is walked).
   */
  method Unconvert(coinCode: string) returns (codes: seq<string>)
    ensures |codes| >= 1 && codes[0] == coinCode
    ensures forall k :: k in codes[1..] <==> k in Preimage(coinCode)
    ensures forall i, j :: 1 <= i < j < |codes| ==> codes[i] != codes[j]
  {
    codes := [coinCode];
    var remaining := ConvertedCoins.Keys;
    while remaining != {}
      invariant remaining <= ConvertedCoins.Keys
      invariant |codes| >= 1 && codes[0] == coinCode
      invariant forall k :: k in codes[1..] <==> k in ConvertedCoins.Keys - remaining && ConvertedCoins[k] == coinCode
      invariant forall i, j :: 1 <= i < j < |codes| ==> codes[i] != codes[j]
      decreases remaining
    {
      var from :| from in remaining;
      if ConvertedCoins[from] == coinCode {
        assert (codes + [from])[1..] == codes[1..] + [from];
        codes := codes + [from];
      }
      remaining := remaining - {from};
    }
  }

  /** Round trip as the mapper's callers see it: `c` is among `unconvert(convert(c)!)`. */
  method ConvertThenUnconvertCodes(coinCode: string) returns (codes: seq<string>)
    requires coinCode !in DisabledCoins
    ensures ConvertCode(coinCode).Some? && coinCode in codes
  {
    ConvertThenUnconvert(coinCode);
    codes := Unconvert(ConvertCode(coinCode).value);
    if coinCode != codes[0] {
      assert coinCode in codes[1..];
    }
  }

  /** Only disabled and renamed codes are affected by ConvertCode; every other code maps to itself. */
  lemma ConvertCodeIdentityElsewhere(coinCode: string)
    ensures ConvertCode(coinCode) == Some(coinCode) <==> coinCode !in DisabledCoins && coinCode !in ConvertedCoins
  {
    if coinCode in ConvertedCoins {
      assert ConvertedCoins[coinCode] != coinCode;
    }
  }

  /** Round trip: a code with a rate is among the codes that its converted code unconverts to. */
  lemma ConvertThenUnconvert(coinCode: string)
    requires coinCode !in DisabledCoins
    ensures ConvertCode(coinCode).Some?
    ensures coinCode == ConvertCode(coinCode).value || coinCode in Preimage(ConvertCode(coinCode).value)
  {
  }

  /** The rename table read backwards: only "HOLO" has another wallet code, "HOT". */
  lemma PreimageOfTable(providerCode: string)
    ensures Preimage(providerCode) == if providerCode == "HOLO" then {"HOT"} else {}
  {
    if providerCode == "HOLO" {
      assert "HOT" in Preimage(providerCode);
    }
  }
}
