/**
 * transform_users: the cached user records become login records whose
 * username is the user's email address.
 */
module Users {

  /** A cached user record: field name to value. */
  type UserRecord = map<string, string>

  const EmailKey := "email"
  const UsernameKey := "username"

  /**
   * What `dict(username=i['email'], **i)` accepts: an email field to read, and no
   * username field of its own (a second username keyword is a TypeError).
   */
  predicate LoginSource(u: UserRecord) {
    EmailKey in u && UsernameKey !in u
  }

  /**
   * One login record per cached record, in order: the record itself plus a
   * username equal to its email, and nothing else.
   */
  function TransformUsers(ucusers: seq<UserRecord>): (r: seq<UserRecord>)
    requires forall i :: 0 <= i < |ucusers| ==> EmailKey in ucusers[i] && UsernameKey !in ucusers[i]
    ensures |r| == |ucusers|
    ensures forall i :: 0 <= i < |r| ==>
      && r[i].Keys == ucusers[i].Keys + {UsernameKey}
      && r[i] - {UsernameKey} == ucusers[i]
      && r[i][UsernameKey] == r[i][EmailKey] == ucusers[i][EmailKey]
  {
    seq(|ucusers|, i requires 0 <= i < |ucusers| => Login(ucusers[i]))
  }

  /** One login record: the cached record with `username` set to its email. */
  function Login(u: UserRecord): (r: UserRecord)
    requires LoginSource(u)
    ensures r.Keys == u.Keys + {UsernameKey}
    ensures r - {UsernameKey} == u
    ensures r[UsernameKey] == r[EmailKey] == u[EmailKey]
  {
    u[UsernameKey := u[EmailKey]]
  }

  /** Dropping the username again gives back exactly the cached records. */
  lemma {:induction false} TransformUsersInverse(ucusers: seq<UserRecord>)
    requires forall i :: 0 <= i < |ucusers| ==> EmailKey in ucusers[i] && UsernameKey !in ucusers[i]
    ensures WithoutUsernames(TransformUsers(ucusers)) == ucusers
  {
    var r := TransformUsers(ucusers);
    assert forall i :: 0 <= i < |ucusers| ==> WithoutUsernames(r)[i] == ucusers[i];
  }

  /** Each record without its username field. */
  function WithoutUsernames(us: seq<UserRecord>): seq<UserRecord> {
    seq(|us|, i requires 0 <= i < |us| => us[i] - {UsernameKey})
  }
}
