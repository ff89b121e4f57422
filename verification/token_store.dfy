/** The in-memory token store of backend/src/utils/tokenStore.js. The
    `global.xeroTokenData` slot becomes the `stored` field (None for null
    or never set), and `Date.now()` is the `now` parameter, in
    milliseconds. */
module TokenStore {
  import opened Results
  import opened JsNumbers
  import opened JsValues

  /** `Date.now() + (tokens.expires_in * 1000)`: NaN when `expires_in` is
      not numeric. */
  function ExpiresAt(tokens: Object, now: int): (r: Num)
    ensures var e := ToNumber(Property(tokens, "expires_in"));
      (r.Fin? <==> e.Fin?) && (e.Fin? ==> r.val == now as real + 1000.0 * e.val)
  {
    var e := ToNumber(Property(tokens, "expires_in"));
    if e.Fin? then Fin(now as real + e.val * 1000.0) else NaN
  }

  /** `{ ...tokens, expires_at: .. }` */
  function Stamped(tokens: Object, now: int): Object {
    tokens["expires_at" := Number(ExpiresAt(tokens, now))]
  }

  /** The saved record keeps every field it was given, except that
      `expires_at` is set afresh, and holds nothing else. */
  lemma StampedSpec(tokens: Object, now: int)
    ensures var r := Stamped(tokens, now);
      r.Keys == tokens.Keys + {"expires_at"} &&
      Property(r, "expires_at") == Number(ExpiresAt(tokens, now)) &&
      (forall k :: k in tokens && k != "expires_at" ==> Property(r, k) == tokens[k])
  {
  }

  /** `Date.now() >= tokens.expires_at`: a comparison with NaN is false. */
  predicate Expired(record: Object, now: int) {
    var n := ToNumber(Property(record, "expires_at"));
    n.Fin? && now as real >= n.val
  }

  /** What `getValidTokens` returns from a store holding `s`. */
  function ValidTokens(s: Option<Object>, now: int): (r: Option<Object>)
    ensures r.Some? ==> r == s
  {
    if s.Some? && !Expired(s.value, now) then s else None
  }

  /** What the store holds after `getValidTokens`: an expired record is
      cleared. */
  function AfterCheck(s: Option<Object>, now: int): (r: Option<Object>)
    ensures r.Some? ==> r == s
  {
    if s.Some? && Expired(s.value, now) then None else s
  }

  /** The three outcomes of `getValidTokens`: nothing stored, an expired
      record (cleared, null returned), a live record (returned, kept). */
  lemma ValidTokensCases(s: Option<Object>, now: int)
    ensures s.None? ==> ValidTokens(s, now).None? && AfterCheck(s, now).None?
    ensures s.Some? && Expired(s.value, now) ==> ValidTokens(s, now).None? && AfterCheck(s, now).None?
    ensures s.Some? && !Expired(s.value, now) ==> ValidTokens(s, now) == s && AfterCheck(s, now) == s
    ensures ValidTokens(s, now) == AfterCheck(s, now)
  {
  }

  /** Checking twice at the same time changes nothing more and returns the
      same. */
  lemma AfterCheckIdempotent(s: Option<Object>, now: int)
    ensures AfterCheck(AfterCheck(s, now), now) == AfterCheck(s, now)
    ensures ValidTokens(AfterCheck(s, now), now) == ValidTokens(s, now)
  {
  }

  /** Once expired, a record stays expired. */
  lemma ExpiredLater(record: Object, now: int, later: int)
    requires now <= later && Expired(record, now)
    ensures Expired(record, later)
  {
  }

  /** A record saved at `saved` with a numeric `expires_in` of e seconds is
      valid strictly before saved + 1000e and expired from then on, the
      boundary included; one whose `expires_in` is not numeric never
      expires. */
  lemma SavedLifetime(tokens: Object, saved: int, now: int)
    ensures var e := ToNumber(Property(tokens, "expires_in"));
      var r := Stamped(tokens, saved);
      (e.Fin? ==> (Expired(r, now) <==> now as real >= saved as real + 1000.0 * e.val)) &&
      (e.NaN? ==> !Expired(r, now))
  {
    StampedSpec(tokens, saved);
  }

  /** `tokenStore`. */
  class Store {
    var stored: Option<Object>

    /** Nothing is stored before the first save. */
    constructor()
      ensures stored == None
    {
      stored := None;
    }

    /** `saveTokens(tokens)` */
    method SaveTokens(tokens: Object, now: int) returns (r: Object)
      modifies this
      ensures r == Stamped(tokens, now) && stored == Some(r)
    {
      r := tokens["expires_at" := Number(ExpiresAt(tokens, now))];
      stored := Some(r);
    }

    /** `getTokens()`: the stored record, or null. */
    method GetTokens() returns (r: Option<Object>)
      ensures r == stored
    {
      r := stored;
    }

    /** `clearTokens()` */
    method ClearTokens()
      modifies this
      ensures stored == None
    {
      stored := None;
    }

    /** `getValidTokens()` */
    method GetValidTokens(now: int) returns (r: Option<Object>)
      modifies this
      ensures r == ValidTokens(old(stored), now)
      ensures stored == AfterCheck(old(stored), now)
    {
      var tokens := GetTokens();
      if tokens.None? {
        return None;
      }
      if Expired(tokens.value, now) {
        ClearTokens();
        return None;
      }
      r := tokens;
    }
  }

  /** A save followed by a check before the expiry returns the saved record
      and leaves it stored; after `clearTokens` nothing is returned. */
  method SaveThenCheck(store: Store, tokens: Object, saved: int, now: int) returns (r: Option<Object>)
    modifies store
    requires ToNumber(Property(tokens, "expires_in")).Fin?
    requires now as real < saved as real + 1000.0 * ToNumber(Property(tokens, "expires_in")).val
    ensures r == Some(Stamped(tokens, saved)) && store.stored == r
  {
    var t := store.SaveTokens(tokens, saved);
    SavedLifetime(tokens, saved, now);
    r := store.GetValidTokens(now);
  }

  method ClearThenCheck(store: Store, now: int) returns (r: Option<Object>)
    modifies store
    ensures r.None? && store.stored.None?
  {
    store.ClearTokens();
    r := store.GetValidTokens(now);
  }
}
