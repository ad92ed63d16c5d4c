/** Push-notification tokens (controllers/notificationController.js): each
    user keeps a list of Firebase Cloud Messaging tokens that the reminder
    service sends to. Registering a token is idempotent; removing a token
    pulls every entry carrying it. The token lists behave as sets of
    tokens, which the lemmas below make precise. */
module NotificationController {
  import opened Common

  /** One entry of `User.fcmTokens` (models/User.js). */
  datatype FcmToken = FcmToken(token: string, device: string, createdAt: int)

  /** The part of a user document the controller touches. */
  datatype User = User(id: Id, fcmTokens: seq<FcmToken>)

  /** `User.findById(id)`. */
  function FindUser(users: seq<User>, id: Id): (r: Option<nat>)
    ensures r.Some? ==> r.value < |users| && users[r.value].id == id
    ensures r.Some? ==> forall j :: 0 <= j < r.value ==> users[j].id != id
    ensures r.None? <==> forall j :: 0 <= j < |users| ==> users[j].id != id
  {
    FindIndex(users, (u: User) => u.id == id)
  }

  predicate HasToken(tokens: seq<FcmToken>, token: string) {
    exists i :: 0 <= i < |tokens| && tokens[i].token == token
  }

  /** No token string occurs in two entries. */
  predicate TokensUnique(tokens: seq<FcmToken>) {
    forall i, j :: 0 <= i < j < |tokens| ==> tokens[i].token != tokens[j].token
  }

  predicate AllTokensUnique(users: seq<User>) {
    forall j :: 0 <= j < |users| ==> TokensUnique(users[j].fcmTokens)
  }

  /** Both user stores hold the same users in the same order. */
  predicate SameUsers(a: seq<User>, b: seq<User>) {
    |a| == |b| && forall j :: 0 <= j < |a| ==> a[j].id == b[j].id
  }

  /** Replaces user `k`'s token list, leaving every other user as it was. */
  function WithTokens(users: seq<User>, k: nat, tokens: seq<FcmToken>): (r: seq<User>)
    requires k < |users|
    ensures SameUsers(users, r)
    ensures r[k].fcmTokens == tokens
    ensures forall j :: 0 <= j < |users| && j != k ==> r[j] == users[j]
  {
    users[k := users[k].(fcmTokens := tokens)]
  }

  datatype Registration = AlreadyRegistered | Registered

  /** `registerFcmToken`: a missing or empty token is refused, then an
      unknown user; a token already in the list is acknowledged without a
      write; otherwise the token is appended with its device, `web` when
      none is given. */
  function RegisterFcmToken(users: seq<User>, userId: Id, token: Option<string>,
                            device: Option<string>, now: int): (r: Result<(seq<User>, Registration)>)
    ensures !Truthy(token) ==> r == Err(InvalidInput("FCM token is required"))
    ensures Truthy(token) && FindUser(users, userId).None? ==> r == Err(NotFound("User"))
    ensures r.Ok? <==> Truthy(token) && FindUser(users, userId).Some?
    ensures r.Ok? ==> SameUsers(users, r.value.0)
    ensures r.Ok? ==>
              var k := FindUser(users, userId).value;
              && (r.value.1 == AlreadyRegistered <==> HasToken(users[k].fcmTokens, token.value))
              && (r.value.1 == AlreadyRegistered ==> r.value.0 == users)
              && (r.value.1 == Registered ==>
                    r.value.0 == WithTokens(users, k, users[k].fcmTokens
                                                  + [FcmToken(token.value, TextOr(device, "web"), now)]))
  {
    if !Truthy(token) then Err(InvalidInput("FCM token is required"))
    else match FindUser(users, userId)
      case None => Err(NotFound("User"))
      case Some(k) =>
        if HasToken(users[k].fcmTokens, token.value) then Ok((users, AlreadyRegistered))
        else
          var entry := FcmToken(token.value, TextOr(device, "web"), now);
          Ok((WithTokens(users, k, users[k].fcmTokens + [entry]), Registered))
  }

  /** The `$pull: { fcmTokens: { token } }` of one list. */
  function WithoutToken(tokens: seq<FcmToken>, token: string): seq<FcmToken> {
    Filter(tokens, (t: FcmToken) => t.token != token)
  }

  /** `removeFcmToken`: a missing or empty token is refused; otherwise the
      user's list loses every entry with that token. An unknown user is
      not an error: the update matches nothing. */
  function RemoveFcmToken(users: seq<User>, userId: Id, token: Option<string>): (r: Result<seq<User>>)
    ensures !Truthy(token) ==> r == Err(InvalidInput("FCM token is required"))
    ensures Truthy(token) ==> r.Ok? && SameUsers(users, r.value)
    ensures Truthy(token) && FindUser(users, userId).None? ==> r == Ok(users)
    ensures Truthy(token) && FindUser(users, userId).Some? ==>
              var k := FindUser(users, userId).value;
              && forall j :: 0 <= j < |users| && j != k ==> r.value[j] == users[j]
  {
    if !Truthy(token) then Err(InvalidInput("FCM token is required"))
    else match FindUser(users, userId)
      case None => Ok(users)
      case Some(k) => Ok(WithTokens(users, k, WithoutToken(users[k].fcmTokens, token.value)))
  }

  // ------------------------------------------------------------------ lemmas

  /** Pulling a token keeps exactly the entries with other tokens. */
  lemma WithoutTokenContents(tokens: seq<FcmToken>, token: string, e: FcmToken)
    ensures e in WithoutToken(tokens, token) <==> e in tokens && e.token != token
  {
    var r := WithoutToken(tokens, token);
    if e in r {
      var i :| 0 <= i < |r| && r[i] == e;
    }
    if e in tokens && e.token != token {
      var i :| 0 <= i < |tokens| && tokens[i] == e;
    }
  }

  /** A list in which no entry carries the token is left as it is. */
  lemma {:induction false} WithoutAbsentToken(tokens: seq<FcmToken>, token: string)
    requires !HasToken(tokens, token)
    ensures WithoutToken(tokens, token) == tokens
  {
    if |tokens| > 0 {
      assert !HasToken(tokens[1..], token) by {
        forall i | 0 <= i < |tokens[1..]| ensures tokens[1..][i].token != token {
          assert tokens[1..][i] == tokens[i + 1];
        }
      }
      WithoutAbsentToken(tokens[1..], token);
      assert tokens == [tokens[0]] + tokens[1..];
    }
  }

  /** Pulling keeps the remaining entries unique. */
  lemma {:induction false} WithoutTokenKeepsUnique(tokens: seq<FcmToken>, token: string)
    requires TokensUnique(tokens)
    ensures TokensUnique(WithoutToken(tokens, token))
  {
    if |tokens| > 0 {
      var rest := WithoutToken(tokens[1..], token);
      assert TokensUnique(tokens[1..]) by {
        forall i, j | 0 <= i < j < |tokens[1..]|
          ensures tokens[1..][i].token != tokens[1..][j].token
        {
          assert tokens[1..][i] == tokens[i + 1] && tokens[1..][j] == tokens[j + 1];
        }
      }
      WithoutTokenKeepsUnique(tokens[1..], token);
      if tokens[0].token != token {
        forall j | 0 <= j < |rest| ensures rest[j].token != tokens[0].token {
          WithoutTokenContents(tokens[1..], token, rest[j]);
          var m :| 0 <= m < |tokens[1..]| && tokens[1..][m] == rest[j];
          assert tokens[m + 1] == rest[j];
        }
        assert WithoutToken(tokens, token) == [tokens[0]] + rest;
      }
    }
  }

  /** Registering the same token a second time, from any device and at any
      time, changes nothing. */
  lemma RegisterIdempotent(users: seq<User>, userId: Id, token: Option<string>,
                           device: Option<string>, now: int, device': Option<string>, now': int)
    requires RegisterFcmToken(users, userId, token, device, now).Ok?
    ensures var once := RegisterFcmToken(users, userId, token, device, now).value.0;
            RegisterFcmToken(once, userId, token, device', now') == Ok((once, AlreadyRegistered))
  {
    var once := RegisterFcmToken(users, userId, token, device, now).value.0;
    var k := FindUser(users, userId).value;
    assert FindUser(once, userId) == Some(k);
    assert once[k].fcmTokens[|once[k].fcmTokens| - 1].token == token.value
           || HasToken(users[k].fcmTokens, token.value);
  }

  /** Registration keeps every user's token list free of duplicates. */
  lemma RegisterKeepsTokensUnique(users: seq<User>, userId: Id, token: Option<string>,
                                  device: Option<string>, now: int)
    requires AllTokensUnique(users)
    requires RegisterFcmToken(users, userId, token, device, now).Ok?
    ensures AllTokensUnique(RegisterFcmToken(users, userId, token, device, now).value.0)
  {
    var r := RegisterFcmToken(users, userId, token, device, now).value;
    var k := FindUser(users, userId).value;
    if r.1 == Registered {
      var old_ := users[k].fcmTokens;
      var t := r.0[k].fcmTokens;
      forall i, j | 0 <= i < j < |t| ensures t[i].token != t[j].token {
        if j == |old_| {
          assert t[i] == old_[i];
        } else {
          assert t[i] == old_[i] && t[j] == old_[j];
        }
      }
    }
  }

  /** Removal keeps every user's token list free of duplicates. */
  lemma RemoveKeepsTokensUnique(users: seq<User>, userId: Id, token: Option<string>)
    requires AllTokensUnique(users)
    requires RemoveFcmToken(users, userId, token).Ok?
    ensures AllTokensUnique(RemoveFcmToken(users, userId, token).value)
  {
    if FindUser(users, userId).Some? {
      var k := FindUser(users, userId).value;
      WithoutTokenKeepsUnique(users[k].fcmTokens, token.value);
    }
  }

  /** After removal the user holds no entry with the token, and every entry
      with another token is still there. */
  lemma RemoveFcmTokenEffect(users: seq<User>, userId: Id, token: Option<string>, e: FcmToken)
    requires Truthy(token) && FindUser(users, userId).Some?
    ensures var k := FindUser(users, userId).value;
            var after := RemoveFcmToken(users, userId, token).value[k].fcmTokens;
            && !HasToken(after, token.value)
            && (e in after <==> e in users[k].fcmTokens && e.token != token.value)
  {
    var k := FindUser(users, userId).value;
    var after := RemoveFcmToken(users, userId, token).value[k].fcmTokens;
    WithoutTokenContents(users[k].fcmTokens, token.value, e);
    forall i | 0 <= i < |after| ensures after[i].token != token.value {
      WithoutTokenContents(users[k].fcmTokens, token.value, after[i]);
    }
  }

  /** Removing a token that was just registered as new restores the store
      it was registered into. */
  lemma {:induction false} RemoveUndoesRegister(users: seq<User>, userId: Id, token: Option<string>,
                                                device: Option<string>, now: int)
    requires RegisterFcmToken(users, userId, token, device, now).Ok?
    requires RegisterFcmToken(users, userId, token, device, now).value.1 == Registered
    ensures RemoveFcmToken(RegisterFcmToken(users, userId, token, device, now).value.0, userId, token)
            == Ok(users)
  {
    var once := RegisterFcmToken(users, userId, token, device, now).value.0;
    var k := FindUser(users, userId).value;
    assert FindUser(once, userId) == Some(k);
    var before := users[k].fcmTokens;
    var entry := FcmToken(token.value, TextOr(device, "web"), now);
    FilterAppend(before, [entry], (t: FcmToken) => t.token != token.value);
    assert WithoutToken([entry], token.value) == [];
    WithoutAbsentToken(before, token.value);
    assert WithoutToken(once[k].fcmTokens, token.value) == before;
    assert WithTokens(once, k, before) == users;
  }
}
