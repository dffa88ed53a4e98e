/** `POST /api/create-profile` (app/api/create-profile/route.ts): return the
    caller's profile, creating it with default fields when it is missing. */
module CreateProfile {
  import opened Optional
  import opened JsString
  import opened Profiles

  /** The JSON body `{ userId, email, fullName, avatarUrl }`; absent fields
      are `None`. */
  datatype Request = Request(userId: string, email: Option<string>, fullName: Option<string>, avatarUrl: Option<string>)

  /** `{ profile }` with status 200, or `{ error: 'Failed to create profile' }` with status 500. */
  datatype Response = Response(status: int, profile: Option<Profile>, error: Option<string>)

  const FailureMessage := "Failed to create profile"

  function Failed(): Response {
    Response(500, None, Some(FailureMessage))
  }

  /** `email.split('@')[0]`. */
  function LocalPart(email: string): (r: string)
    ensures |r| <= |email| && email[..|r|] == r
    ensures '@' !in r
    ensures '@' in email ==> |r| < |email| && email[|r|] == '@'
    ensures '@' !in email ==> r == email
  {
    SplitHead(email, '@');
    Split(email, "@")[0]
  }

  /** The first piece of a split on one character is the text before its
      first occurrence, or the whole text when it does not occur. */
  lemma SplitHead(s: string, c: char)
    ensures var h := Split(s, [c])[0];
      |h| <= |s| && s[..|h|] == h && c !in h
      && (c in s ==> |h| < |s| && s[|h|] == c)
      && (c !in s ==> h == s)
  {
    var i := IndexOf(s, [c]);
    forall k | 0 <= k < |s| && (i < 0 || k < i) ensures s[k] != c {
      OccursChar(s, c, k);
    }
    if i >= 0 {
      SplitStep(s, [c], i);
      OccursChar(s, c, i);
    } else {
      SplitNoSeparator(s, c);
    }
  }

  /** The row the route inserts for a new user, or the error it throws:
      `email.split` on a missing email throws when `fullName` is falsy. */
  function NewProfile(req: Request): (r: Result<Profile, string>)
    ensures r.Success? <==> Truthy(req.fullName) || req.email.Some?
    ensures r.Success? ==>
      var p := r.value;
      p.id == req.userId && p.email == req.email
      && p.imagesGenerated == Some(0) && !p.paid && p.subscriptionId.None?
      && p.avatarUrl == OrElse(req.avatarUrl, "")
      && (Truthy(req.fullName) ==> p.fullName == req.fullName.value)
      && (!Truthy(req.fullName) ==> p.fullName == LocalPart(req.email.value))
  {
    if !Truthy(req.fullName) && req.email.None? then
      Failure("TypeError: email is undefined")
    else
      var name := if Truthy(req.fullName) then req.fullName.value else LocalPart(req.email.value);
      Success(Profile(req.userId, req.email, name, OrElse(req.avatarUrl, ""), Some(0), false, None))
  }

  /** A new user's display name: the given full name, otherwise what precedes
      the first '@' of the email (the whole email when it has none). */
  lemma DefaultName(req: Request)
    requires !Truthy(req.fullName) && req.email.Some?
    ensures var name := NewProfile(req).value.fullName;
      '@' !in name
      && (('@' !in req.email.value) ==> name == req.email.value)
      && (('@' in req.email.value) ==> req.email.value[..|name| + 1] == name + "@")
  {
    var e := req.email.value;
    var name := LocalPart(e);
    if '@' in e {
      assert e[..|name| + 1] == e[..|name|] + [e[|name|]];
    }
  }

  /** The route, against the table. `insertFails` stands for an error the
      store reports on insert. */
  method Post(table: ProfileTable, req: Request, insertFails: bool) returns (res: Response)
    requires table.Valid()
    modifies table
    ensures table.Valid()
    ensures req.userId in old(table.rows) ==>
      res == Response(200, Some(old(table.rows)[req.userId]), None) && table.rows == old(table.rows)
    ensures req.userId !in old(table.rows) ==>
      match NewProfile(req)
      case Failure(_) => res == Failed() && table.rows == old(table.rows)
      case Success(p) =>
        if insertFails then res == Failed() && table.rows == old(table.rows)
        else res == Response(200, Some(p), None) && table.rows == old(table.rows)[req.userId := p]
  {
    var existing := table.SelectById(req.userId);
    if existing.Some? {
      return Response(200, existing, None);
    }
    var candidate := NewProfile(req);
    if candidate.Failure? {
      return Failed();
    }
    var p := candidate.value;
    var ok := table.Insert(p, insertFails);
    if !ok {
      return Failed();
    }
    res := Response(200, Some(p), None);
  }

  /** Get-or-create is idempotent: once the route has answered 200 for a user,
      asking again returns the same profile and writes nothing. */
  method PostTwice(table: ProfileTable, req: Request, insertFails: bool) returns (first: Response, second: Response)
    requires table.Valid()
    modifies table
    ensures first.status == 200 ==> second == first
    ensures first.status == 200 ==> req.userId in table.rows
  {
    first := Post(table, req, insertFails);
    ghost var after := table.rows;
    second := Post(table, req, insertFails);
    assert first.status == 200 ==> req.userId in after;
  }
}
