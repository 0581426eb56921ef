/** Result types, permanent failures and the currency code conventions shared by every module. */
module Prelude {

  datatype Option<+T> = None | Some(value: T)

  datatype Result<+T, +E> = Ok(value: T) | Err(error: E)

  /** Any number the outside world may come up with. */
  method AnyNat() returns (n: nat) {
    var i: int := *;
    n := if i < 0 then 0 else i;
  }

  /** Why a message can never succeed: the permanent errors, and running out of deliveries. */
  datatype Reason = ExceededDeliveries | InvalidEvent | UnknownCurrency

  const BASE_CURRENCY := "USD"

  /** `str.upper` on the letters that currency codes are made of. */
  function Upper(s: string): (r: string)
    ensures |r| == |s|
    ensures forall i :: 0 <= i < |s| ==>
              if 'a' <= s[i] <= 'z' then 'A' <= r[i] <= 'Z' && r[i] - 'A' == s[i] - 'a' else r[i] == s[i]
  {
    if s == [] then []
    else [if 'a' <= s[0] <= 'z' then s[0] - 'a' + 'A' else s[0]] + Upper(s[1..])
  }

  predicate Capitals(s: string) {
    forall i :: 0 <= i < |s| ==> 'A' <= s[i] <= 'Z'
  }

  /** A code of capitals is its own upper case; and the base currency is the US dollar. */
  lemma CapitalsStay(s: string)
    requires Capitals(s)
    ensures Upper(s) == s && (s == BASE_CURRENCY <==> s == "USD")
  {
    forall i | 0 <= i < |s| ensures Upper(s)[i] == s[i] {
      assert 'A' <= s[i] <= 'Z';
    }
  }
}
