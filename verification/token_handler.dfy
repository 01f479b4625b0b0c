/** `checkTokenValidity` in statics/token-handler.js: a stored token is
    valid until its stored expiry time has passed; an expired token is
    removed from the browser's key/value store. */
module TokenHandler {
  import opened Wrappers

  const TokenKey := "token"
  const ExpiryKey := "expirationTime"

  /** The browser's `localStorage`: string keys to string values. */
  class LocalStorage {
    var items: map<string, string>

    constructor (initial: map<string, string>)
      ensures items == initial
    {
      items := initial;
    }

    /** `getItem`: the stored value, or `null` for an absent key. */
    method GetItem(key: string) returns (v: Option<string>)
      ensures v == Lookup(items, key)
    {
      if key in items {
        v := Some(items[key]);
      } else {
        v := None;
      }
    }

    /** `removeItem` */
    method RemoveItem(key: string)
      modifies this
      ensures items == old(items) - {key}
    {
      items := items - {key};
    }
  }

  function Lookup(m: map<string, string>, key: string): (r: Option<string>)
    ensures r.Some? <==> key in m
    ensures r.Some? ==> r.value == m[key]
  {
    if key in m then Some(m[key]) else None
  }

  /** JavaScript truthiness of `getItem`'s result: `null` and `""` are
      false. */
  predicate Truthy(v: Option<string>) {
    v.Some? && v.value != ""
  }

  predicate HasToken(m: map<string, string>) {
    Truthy(Lookup(m, TokenKey)) && Truthy(Lookup(m, ExpiryKey))
  }

  /** `now > expirationTime`: the comparison converts the stored string to a
      number; `toNumber` is that conversion, `None` standing for NaN, which
      makes the comparison false. */
  predicate Expired(m: map<string, string>, now: int, toNumber: string -> Option<real>) {
    HasToken(m) && toNumber(m[ExpiryKey]).Some? && (now as real) > toNumber(m[ExpiryKey]).value
  }

  /** The answer `checkTokenValidity` gives for store `m` at time `now`. */
  predicate TokenValid(m: map<string, string>, now: int, toNumber: string -> Option<real>) {
    HasToken(m) && !Expired(m, now, toNumber)
  }

  /** The store after the check: an expired token and its expiry are
      removed, and nothing else changes. */
  function AfterCheck(m: map<string, string>, now: int, toNumber: string -> Option<real>)
    : (r: map<string, string>)
    ensures forall k :: k != TokenKey && k != ExpiryKey ==> Lookup(r, k) == Lookup(m, k)
    ensures Expired(m, now, toNumber) ==> TokenKey !in r && ExpiryKey !in r
    ensures !Expired(m, now, toNumber) ==> r == m
  {
    if Expired(m, now, toNumber) then m - {TokenKey, ExpiryKey} else m
  }

  method CheckTokenValidity(storage: LocalStorage, now: int, toNumber: string -> Option<real>)
    returns (valid: bool)
    modifies storage
    ensures valid == TokenValid(old(storage.items), now, toNumber)
    ensures storage.items == AfterCheck(old(storage.items), now, toNumber)
  {
    var token := storage.GetItem(TokenKey);
    var expirationTime := storage.GetItem(ExpiryKey);
    if !Truthy(token) || !Truthy(expirationTime) {
      return false;
    }
    var limit := toNumber(expirationTime.value);
    if limit.Some? && (now as real) > limit.value {
      storage.RemoveItem(TokenKey);
      storage.RemoveItem(ExpiryKey);
      assert storage.items == old(storage.items) - {TokenKey, ExpiryKey};
      return false;
    }
    return true;
  }

  /** Checking again gives the same answer and changes nothing more:
      after an expiry the token is gone, and a valid token stays. */
  lemma CheckIdempotent(m: map<string, string>, now: int, toNumber: string -> Option<real>)
    ensures TokenValid(AfterCheck(m, now, toNumber), now, toNumber) == TokenValid(m, now, toNumber)
    ensures AfterCheck(AfterCheck(m, now, toNumber), now, toNumber) == AfterCheck(m, now, toNumber)
  {
  }

  /** Expiry is strict: at the expiry instant itself the token is still
      valid. */
  lemma ValidAtExpiryInstant(m: map<string, string>, now: int, toNumber: string -> Option<real>)
    requires HasToken(m)
    requires toNumber(m[ExpiryKey]) == Some(now as real)
    ensures TokenValid(m, now, toNumber)
    ensures AfterCheck(m, now, toNumber) == m
  {
  }

  /** A token that has expired stays invalid at every later time, whether
      or not the check has removed it yet. */
  lemma ExpiryIsMonotone(m: map<string, string>, now: int, later: int, toNumber: string -> Option<real>)
    requires now <= later
    requires Expired(m, now, toNumber)
    ensures !TokenValid(m, later, toNumber)
    ensures !TokenValid(AfterCheck(m, now, toNumber), later, toNumber)
  {
  }
}
