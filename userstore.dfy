/**
 * AppUserStore.cs, the token and recovery-code part of the user store: a
 * token table keyed by (user, login provider, token name), the recovery
 * codes kept as one ';'-joined token, and a user's access-failure counter.
 */
module UserStore {
  import opened Wrappers
  import opened Text
  import opened Diplo

  /** A row of the token table is found by user, login provider and token name. */
  type TokenKey = (UserId, string, string)

  const InternalLoginProvider: string := "[AspNetUserStore]"
  const AuthenticatorKeyTokenName: string := "AuthenticatorKey"
  const RecoveryCodeTokenName: string := "RecoveryCodes"
  const CodeSeparator: char := ';'

  /** The key under which a user's recovery codes are stored. */
  function CodesKey(user: UserId): TokenKey {
    (user, InternalLoginProvider, RecoveryCodeTokenName)
  }

  /** `GetTokenAsync`: the stored value, null both for a missing row and for a row whose value is null. */
  function TokenValue(tokens: map<TokenKey, Option<string>>, key: TokenKey): (r: Option<string>)
    ensures key !in tokens ==> r == None
  {
    if key in tokens then tokens[key] else None
  }

  /** `CountCodesAsync` on the stored value: none for a null or empty token, else one more than the separators. */
  function CountCodes(merged: Option<string>): (r: nat)
    ensures r == 0 <==> merged.GetOr("") == ""
    ensures r > 0 ==> r == CountChar(merged.value, CodeSeparator) + 1
  {
    var codes := merged.GetOr("");
    if |codes| > 0 then CountChar(codes, CodeSeparator) + 1 else 0
  }

  /** `Where(s => s != code)`: the entries other than `code`, in their order. */
  function Without(codes: seq<string>, code: string): (r: seq<string>)
    ensures forall x :: x in r <==> x in codes && x != code
    ensures |r| + multiset(codes)[code] == |codes|
  {
    if |codes| == 0 then []
    else
      assert codes == [codes[0]] + codes[1..];
      (if codes[0] == code then [] else [codes[0]]) + Without(codes[1..], code)
  }

  /**
   * Storing codes and counting them again gives their number, for
   * separator-free codes; no codes and the single empty code both join to
   * "", which counts as none.
   */
  lemma CountAfterReplace(codes: seq<string>)
    requires forall k :: 0 <= k < |codes| ==> CodeSeparator !in codes[k]
    ensures CountCodes(Some(Join(codes, CodeSeparator))) == if codes == [] || codes == [""] then 0 else |codes|
  {
    if |codes| >= 1 {
      CountSeparatorsInJoin(codes, CodeSeparator);
      if |codes| >= 2 {
        assert Join(codes, CodeSeparator)[|codes[0]|] == CodeSeparator;
      }
    }
  }

  /** Why `RedeemCodeAsync` refuses a code before looking at the store. */
  datatype RedeemError = NullOrEmptyCode

  /**
   * The codes left after redeeming `code`, or null when `code` is not one of
   * the stored ones.
   */
  function Redeemed(merged: Option<string>, code: string): (r: Option<seq<string>>)
    ensures r == None <==> code !in Split(merged.GetOr(""), CodeSeparator)
    ensures r != None ==> r.value == Without(Split(merged.GetOr(""), CodeSeparator), code)
  {
    var splitCodes := Split(merged.GetOr(""), CodeSeparator);
    if code in splitCodes then Some(Without(splitCodes, code)) else None
  }

  /** A redeemed code is gone: redeeming it once more finds nothing. */
  lemma RedeemedCodeIsGone(merged: Option<string>, code: string)
    requires code != "" && Redeemed(merged, code) != None
    ensures Redeemed(Some(Join(Redeemed(merged, code).value, CodeSeparator)), code) == None
  {
    var rest := Redeemed(merged, code).value;
    var pieces := Split(merged.GetOr(""), CodeSeparator);
    assert forall k :: 0 <= k < |rest| ==> CodeSeparator !in rest[k] by {
      forall k | 0 <= k < |rest| ensures CodeSeparator !in rest[k] {
        assert rest[k] in pieces;
      }
    }
    if |rest| == 0 {
      assert Split("", CodeSeparator) == [""];
    } else {
      SplitJoin(rest, CodeSeparator);
    }
  }

  /** Redeeming leaves one code fewer for each equal entry, and the count follows. */
  lemma CountAfterRedeem(merged: Option<string>, code: string)
    requires Redeemed(merged, code) != None
    ensures var rest := Redeemed(merged, code).value;
      && |rest| < |Split(merged.GetOr(""), CodeSeparator)|
      && CountCodes(Some(Join(rest, CodeSeparator))) == if rest == [] || rest == [""] then 0 else |rest|
  {
    var rest := Redeemed(merged, code).value;
    var pieces := Split(merged.GetOr(""), CodeSeparator);
    assert code in multiset(pieces);
    forall k | 0 <= k < |rest| ensures CodeSeparator !in rest[k] {
      assert rest[k] in pieces;
    }
    CountAfterReplace(rest);
  }

  /** The token table of the user store. */
  class TokenStore {
    var tokens: map<TokenKey, Option<string>>

    constructor()
      ensures tokens == map[]
    {
      tokens := map[];
    }

    /** `SetTokenAsync`: a new row when none exists, else only the value of the row is overwritten. */
    method SetToken(user: UserId, loginProvider: string, name: string, value: Option<string>)
      modifies this
      ensures tokens == old(tokens)[(user, loginProvider, name) := value]
      ensures TokenValue(tokens, (user, loginProvider, name)) == value
    {
      // Adding a row and overwriting the value of the one found are the same update of the table.
      tokens := tokens[(user, loginProvider, name) := value];
    }

    /** `RemoveTokenAsync`: the row goes if there is one; a missing row changes nothing. */
    method RemoveToken(user: UserId, loginProvider: string, name: string)
      modifies this
      ensures tokens == old(tokens) - {(user, loginProvider, name)}
      ensures TokenValue(tokens, (user, loginProvider, name)) == None
      ensures (user, loginProvider, name) !in old(tokens) ==> tokens == old(tokens)
    {
      var key := (user, loginProvider, name);
      if key in tokens {
        tokens := tokens - {key};
      }
    }

    /** `GetTokenAsync`. */
    method GetToken(user: UserId, loginProvider: string, name: string) returns (value: Option<string>)
      ensures value == TokenValue(tokens, (user, loginProvider, name))
    {
      var key := (user, loginProvider, name);
      if key in tokens {
        value := tokens[key];
      } else {
        value := None;
      }
    }

    /** `SetAuthenticatorKeyAsync`. */
    method SetAuthenticatorKey(user: UserId, key: string)
      modifies this
      ensures tokens == old(tokens)[(user, InternalLoginProvider, AuthenticatorKeyTokenName) := Some(key)]
    {
      SetToken(user, InternalLoginProvider, AuthenticatorKeyTokenName, Some(key));
    }

    /** `GetAuthenticatorKeyAsync`. */
    method GetAuthenticatorKey(user: UserId) returns (key: Option<string>)
      ensures key == TokenValue(tokens, (user, InternalLoginProvider, AuthenticatorKeyTokenName))
    {
      key := GetToken(user, InternalLoginProvider, AuthenticatorKeyTokenName);
    }

    /** `CountCodesAsync`. */
    method CountCodesOf(user: UserId) returns (n: nat)
      ensures n == CountCodes(TokenValue(tokens, CodesKey(user)))
    {
      var mergedCodes := GetToken(user, InternalLoginProvider, RecoveryCodeTokenName);
      var codes := mergedCodes.GetOr("");
      if |codes| > 0 {
        return CountChar(codes, CodeSeparator) + 1;
      }
      return 0;
    }

    /** `ReplaceCodesAsync`: the codes joined with ';' become the user's recovery-code token. */
    method ReplaceCodes(user: UserId, recoveryCodes: seq<string>)
      modifies this
      ensures tokens == old(tokens)[CodesKey(user) := Some(Join(recoveryCodes, CodeSeparator))]
    {
      SetToken(user, InternalLoginProvider, RecoveryCodeTokenName, Some(Join(recoveryCodes, CodeSeparator)));
    }

    /**
     * `RedeemCodeAsync`: an empty code is refused; otherwise true exactly
     * when the code is one of the stored entries, which are then stored
     * again without it. False leaves the table as it was.
     */
    method RedeemCode(user: UserId, code: string) returns (r: Result<bool, RedeemError>)
      modifies this
      ensures code == "" ==> r == Failure(NullOrEmptyCode) && tokens == old(tokens)
      ensures code != "" ==> (r.Success?
        && (r.value <==> Redeemed(TokenValue(old(tokens), CodesKey(user)), code) != None)
        && (r.value ==> tokens == old(tokens)[CodesKey(user) :=
              Some(Join(Redeemed(TokenValue(old(tokens), CodesKey(user)), code).value, CodeSeparator))])
        && (!r.value ==> tokens == old(tokens)))
    {
      if code == "" {
        return Failure(NullOrEmptyCode);
      }
      var mergedCodes := GetToken(user, InternalLoginProvider, RecoveryCodeTokenName);
      var splitCodes := Split(mergedCodes.GetOr(""), CodeSeparator);
      if code in splitCodes {
        var updatedCodes := Without(splitCodes, code);
        ReplaceCodes(user, updatedCodes);
        return Success(true);
      }
      return Success(false);
    }
  }

  /** The range of C#'s `int`. */
  newtype Int32 = x: int | -0x8000_0000 <= x < 0x8000_0000

  /** `x++` on an `int` in an unchecked context: one more, the largest value wrapping round to the smallest. */
  function Increment(x: Int32): (r: Int32)
    ensures x < 0x7FFF_FFFF ==> r as int == x as int + 1
    ensures x == 0x7FFF_FFFF ==> r == -0x8000_0000
    ensures r as int % 0x1_0000_0000 == (x as int + 1) % 0x1_0000_0000
  {
    if x == 0x7FFF_FFFF then -0x8000_0000 else x + 1
  }

  /** The part of `User` the access-failure methods change. */
  class User {
    var accessFailedCount: Int32

    constructor()
      ensures accessFailedCount == 0
    {
      accessFailedCount := 0;
    }
  }

  /** `IncrementAccessFailedCountAsync`: the count goes up by one and the new count is returned. */
  method IncrementAccessFailedCount(user: User) returns (count: Int32)
    modifies user
    ensures user.accessFailedCount == Increment(old(user.accessFailedCount)) && count == user.accessFailedCount
  {
    user.accessFailedCount := Increment(user.accessFailedCount);
    count := user.accessFailedCount;
  }

  /** `ResetAccessFailedCountAsync`. */
  method ResetAccessFailedCount(user: User)
    modifies user
    ensures user.accessFailedCount == 0
  {
    user.accessFailedCount := 0;
  }

  /** `GetAccessFailedCountAsync`. */
  method GetAccessFailedCount(user: User) returns (count: Int32)
    ensures count == user.accessFailedCount
  {
    count := user.accessFailedCount;
  }
}
