/**
 * The credential store: three fixed `localStorage` slots holding the access
 * token, the refresh token and the serialised user.
 *
 * `localStorage` is a map from key to string. `JSON.stringify`/`JSON.parse`
 * restricted to users are a pair of functions supplied with the store
 * (`JsonCodec`); `parse` answers `None` for text that does not parse, for
 * `"null"`, and for JSON that is not a user object.
 */
module TokenStorage {
  import opened Wrappers
  import opened ClientTypes

  const AccessTokenKey := "pfn_access_token"
  const RefreshTokenKey := "pfn_refresh_token"
  const UserKey := "pfn_user"
  const StoreFailureMessage := "Failed to store authentication data"

  /** The three keys the store owns; nothing else in `localStorage` is touched. */
  const AuthKeys: set<string> := {AccessTokenKey, RefreshTokenKey, UserKey}

  datatype JsonCodec = JsonCodec(stringify: User -> string, parse: string -> Option<User>)

  /** `JSON.stringify` of a user that may be null: `JSON.stringify(null)` is `"null"`. */
  function Serialize(codec: JsonCodec, user: Option<User>): string {
    match user
    case None => "null"
    case Some(u) => codec.stringify(u)
  }

  /**
   * `JSON.parse` gives back what `JSON.stringify` wrote, including `null`; the
   * text of a user object is never empty (it starts with a brace).
   */
  ghost predicate Faithful(codec: JsonCodec) {
    && codec.parse("null") == None
    && forall u: User :: codec.stringify(u) != "" && codec.parse(codec.stringify(u)) == Some(u)
  }

  /**
   * What `setTokens` is given. The declared type says `user: User`, but the
   * refresh path of the HTTP gateway passes `getUser()!`, which may be null at
   * run time, so the model allows an absent user.
   */
  datatype TokenData = TokenData(accessToken: string, refreshToken: string, user: Option<User>)

  /** `localStorage.getItem(key)` */
  function Lookup(slots: map<string, string>, key: string): Option<string> {
    if key in slots then Some(slots[key]) else None
  }

  function AccessTokenIn(slots: map<string, string>): Option<string> {
    Lookup(slots, AccessTokenKey)
  }

  function RefreshTokenIn(slots: map<string, string>): Option<string> {
    Lookup(slots, RefreshTokenKey)
  }

  /** `getUser`: absent or empty slot, and unparseable text, all give null. */
  function UserIn(codec: JsonCodec, slots: map<string, string>): Option<User> {
    var text := Lookup(slots, UserKey);
    if !Truthy(text) then None else codec.parse(text.value)
  }

  /** `hasValidTokens`: `!!(getAccessToken() && getRefreshToken())` */
  predicate HasValidTokensIn(slots: map<string, string>) {
    Truthy(AccessTokenIn(slots)) && Truthy(RefreshTokenIn(slots))
  }

  /** The three `setItem` calls of `setTokens`, in the order they are made. */
  function TokenWrites(codec: JsonCodec, data: TokenData): seq<(string, string)> {
    [(AccessTokenKey, data.accessToken),
     (RefreshTokenKey, data.refreshToken),
     (UserKey, Serialize(codec, data.user))]
  }

  /** `localStorage` after a sequence of `setItem` calls. */
  function Apply(slots: map<string, string>, writes: seq<(string, string)>): map<string, string>
    decreases |writes|
  {
    if writes == [] then slots
    else Apply(slots[writes[0].0 := writes[0].1], writes[1..])
  }

  /** Unfolds `Apply` over up to three writes. */
  lemma ApplyUpToThree(slots: map<string, string>, w: seq<(string, string)>)
    requires |w| <= 3
    ensures |w| == 0 ==> Apply(slots, w) == slots
    ensures |w| == 1 ==> Apply(slots, w) == slots[w[0].0 := w[0].1]
    ensures |w| == 2 ==> Apply(slots, w) == slots[w[0].0 := w[0].1][w[1].0 := w[1].1]
    ensures |w| == 3 ==> Apply(slots, w) == slots[w[0].0 := w[0].1][w[1].0 := w[1].1][w[2].0 := w[2].1]
  {
    if |w| > 0 {
      var s1 := slots[w[0].0 := w[0].1];
      if |w| > 1 {
        var s2 := s1[w[1].0 := w[1].1];
        if |w| > 2 {
          assert w[1..][1..][1..] == [];
          assert Apply(s2, w[1..][1..]) == Apply(s2[w[2].0 := w[2].1], []);
        } else {
          assert w[1..][1..] == [];
          assert Apply(s1, w[1..]) == Apply(s2, w[1..][1..]);
        }
      } else {
        assert w[1..] == [];
      }
    }
  }

  /** `localStorage` after `clearTokens`. */
  function Cleared(slots: map<string, string>): (r: map<string, string>)
    ensures forall k :: k in r <==> k in slots && k !in AuthKeys
    ensures forall k | k in r :: r[k] == slots[k]
  {
    slots - AuthKeys
  }

  /** After all three writes the getters return exactly what was stored. */
  lemma {:induction false} AllWritesStored(codec: JsonCodec, slots: map<string, string>, data: TokenData)
    requires Faithful(codec)
    ensures var s := Apply(slots, TokenWrites(codec, data));
      && AccessTokenIn(s) == Some(data.accessToken)
      && RefreshTokenIn(s) == Some(data.refreshToken)
      && Lookup(s, UserKey) == Some(Serialize(codec, data.user))
      && UserIn(codec, s) == data.user
      && forall k | k !in AuthKeys :: Lookup(s, k) == Lookup(slots, k)
  {
    ApplyUpToThree(slots, TokenWrites(codec, data));
    match data.user
    case None =>
    case Some(u) => assert codec.stringify(u) != "" && codec.parse(codec.stringify(u)) == Some(u);
  }

  /**
   * A failing `setItem` aborts `setTokens` without rolling back: the slots
   * written before it keep their new values, the rest keep their old ones.
   */
  lemma {:induction false} PartialWritesKept(codec: JsonCodec, slots: map<string, string>, data: TokenData, n: nat)
    requires n < 3
    ensures var s := Apply(slots, TokenWrites(codec, data)[..n]);
      && AccessTokenIn(s) == (if n >= 1 then Some(data.accessToken) else AccessTokenIn(slots))
      && RefreshTokenIn(s) == (if n >= 2 then Some(data.refreshToken) else RefreshTokenIn(slots))
      && Lookup(s, UserKey) == Lookup(slots, UserKey)
      && forall k | k !in AuthKeys :: Lookup(s, k) == Lookup(slots, k)
  {
    ApplyUpToThree(slots, TokenWrites(codec, data)[..n]);
  }

  /** Clearing removes the three slots, keeps every other key, and clearing again changes nothing. */
  lemma ClearedProperties(codec: JsonCodec, slots: map<string, string>)
    ensures AccessTokenIn(Cleared(slots)) == None
    ensures RefreshTokenIn(Cleared(slots)) == None
    ensures UserIn(codec, Cleared(slots)) == None
    ensures !HasValidTokensIn(Cleared(slots))
    ensures Cleared(Cleared(slots)) == Cleared(slots)
  {
  }

  /** Clearing after any of `setTokens`' writes is the same as clearing before them. */
  lemma {:induction false} ClearAfterWrites(codec: JsonCodec, slots: map<string, string>, data: TokenData, n: nat)
    requires n <= 3
    ensures Cleared(Apply(slots, TokenWrites(codec, data)[..n])) == Cleared(slots)
  {
    ApplyUpToThree(slots, TokenWrites(codec, data)[..n]);
  }

  /** The `TokenStorage` class: its static members act on one `localStorage`. */
  class CredentialStore {
    var slots: map<string, string>
    const codec: JsonCodec

    constructor (initial: map<string, string>, codec: JsonCodec)
      ensures slots == initial && this.codec == codec
    {
      slots := initial;
      this.codec := codec;
    }

    /** `getAccessToken`: the slot's text, or null when the key is absent. */
    function GetAccessToken(): (r: Option<string>)
      reads this
      ensures r.Some? <==> AccessTokenKey in slots
      ensures r.Some? ==> r.value == slots[AccessTokenKey]
    {
      AccessTokenIn(slots)
    }

    /** `getRefreshToken`: the slot's text, or null when the key is absent. */
    function GetRefreshToken(): (r: Option<string>)
      reads this
      ensures r.Some? <==> RefreshTokenKey in slots
      ensures r.Some? ==> r.value == slots[RefreshTokenKey]
    {
      RefreshTokenIn(slots)
    }

    /** `getUser`: null for an absent or empty slot, else what `JSON.parse` makes of its text. */
    function GetUser(): (r: Option<User>)
      reads this
      ensures UserKey !in slots || slots[UserKey] == "" ==> r == None
      ensures UserKey in slots && slots[UserKey] != "" ==> r == codec.parse(slots[UserKey])
      ensures Faithful(codec) && UserKey in slots && slots[UserKey] == "null" ==> r == None
    {
      UserIn(codec, slots)
    }

    /** `hasValidTokens`: both token slots present and non-empty. */
    predicate HasValidTokens(): (r: bool)
      reads this
      ensures r <==> && AccessTokenKey in slots && slots[AccessTokenKey] != ""
                     && RefreshTokenKey in slots && slots[RefreshTokenKey] != ""
    {
      HasValidTokensIn(slots)
    }

    /**
     * `setTokens`: three `setItem` calls. The persistence medium accepts the
     * next `writesAccepted` writes and rejects the one after (quota exceeded);
     * a rejection is rethrown as "Failed to store authentication data".
     */
    method SetTokens(data: TokenData, writesAccepted: nat) returns (r: Outcome<ClientError>)
      modifies this
      ensures slots == Apply(old(slots), TokenWrites(codec, data)[..Min(writesAccepted, 3)])
      ensures r.Pass? <==> writesAccepted >= 3
      ensures r.Fail? ==> r.error == Thrown(StoreFailureMessage)
      ensures Faithful(codec) && r.Pass? ==>
        GetAccessToken() == Some(data.accessToken) && GetRefreshToken() == Some(data.refreshToken) &&
        GetUser() == data.user
    {
      ghost var w := TokenWrites(codec, data)[..Min(writesAccepted, 3)];
      ApplyUpToThree(slots, w);
      if writesAccepted == 0 {
        r := Fail(Thrown(StoreFailureMessage));
        return;
      }
      slots := slots[AccessTokenKey := data.accessToken];
      if writesAccepted == 1 {
        r := Fail(Thrown(StoreFailureMessage));
        return;
      }
      slots := slots[RefreshTokenKey := data.refreshToken];
      if writesAccepted == 2 {
        r := Fail(Thrown(StoreFailureMessage));
        return;
      }
      slots := slots[UserKey := Serialize(codec, data.user)];
      r := Pass;
      if Faithful(codec) {
        AllWritesStored(codec, old(slots), data);
      }
    }

    /** `clearTokens`: removes the three slots and nothing else. */
    method ClearTokens()
      modifies this
      ensures slots == Cleared(old(slots))
      ensures GetAccessToken() == None && GetRefreshToken() == None && GetUser() == None
    {
      slots := slots - {AccessTokenKey};
      slots := slots - {RefreshTokenKey};
      slots := slots - {UserKey};
      assert slots == Cleared(old(slots));
    }
  }
}
