/** Order ids: the name of a venue and a local number (crates/atomic-core/src/types.rs, `OrderId`). */
module OrderIds {
  import opened Types

  function VenueName(v: Venue): string {
    match v
    case Binance => "binance"
    case Bybit => "bybit"
    case OKX => "okx"
    case Deribit => "deribit"
    case Coinbase => "coinbase"
    case Kraken => "kraken"
    case DYDX => "dydx"
    case Hyperliquid => "hyperliquid"
    case Simulated => "simulated"
  }

  function Digits(n: nat): string {
    if n < 10 then ["0123456789"[n]] else Digits(n / 10) + ["0123456789"[n % 10]]
  }

  function OrderId(v: Venue, n: nat): string { VenueName(v) + "-" + Digits(n) }

  lemma DigitsNotEmpty(n: nat)
    ensures |Digits(n)| >= 1
  {
  }

  lemma DigitsEnd(n: nat)
    ensures |Digits(n)| >= 1 && Digits(n)[|Digits(n)| - 1] == "0123456789"[n % 10]
    ensures n >= 10 <==> |Digits(n)| >= 2
  {
    if n >= 10 {
      DigitsNotEmpty(n / 10);
    }
  }

  lemma {:induction false} DigitsDiffer(m: nat, n: nat)
    requires m != n
    ensures Digits(m) != Digits(n)
    decreases m + n
  {
    DigitsEnd(m);
    DigitsEnd(n);
    if m >= 10 && n >= 10 && m % 10 == n % 10 {
      DigitsDiffer(m / 10, n / 10);
      assert Digits(m)[..|Digits(m)| - 1] == Digits(m / 10);
      assert Digits(n)[..|Digits(n)| - 1] == Digits(n / 10);
    }
  }

  /** No two numbers share an id. */
  lemma IdsDiffer(v: Venue, m: nat, n: nat)
    requires m != n
    ensures OrderId(v, m) != OrderId(v, n)
  {
    var k := |VenueName(v)| + 1;
    DigitsDiffer(m, n);
    assert OrderId(v, m)[k..] == Digits(m) && OrderId(v, n)[k..] == Digits(n);
  }

  /** The id was generated for this venue while the counter was below n. */
  predicate IdBelow(v: Venue, id: string, n: nat) {
    exists m :: 0 <= m < n && id == OrderId(v, m)
  }
}
