/**
 * The users routes: POST `/` creates the caller's profile once, GET `/me`
 * reads it back, GET `/` lists every profile for display-name lookups.
 */
module Users {
  import opened Wrappers
  import opened JsStrings
  import opened Documents
  import opened Auth

  const DefaultRole: string := "user"

  datatype CreateResult =
    | MissingEmail        // 400
    | AlreadyExists       // 409
    | Created(data: Doc)  // 201

  datatype MeError =
    | ProfileNotFound     // 404
    | ServerError         // 500: the stored `createdAt` is not a timestamp

  /** `email.split('@')[0]`: the text before the first `@`, or the whole address. */
  function EmailPrefix(email: string): (p: string)
    ensures StartsWith(email, p) && '@' !in p
    ensures p == email || (|p| < |email| && email[|p|] == '@')
  {
    SplitHead(email, "@");
    ContainsChar(Split(email, "@")[0], '@');
    Split(email, "@")[0]
  }

  /** The profile stored for a new user. */
  function NewUserRecord(token: DecodedToken, name: string, role: string, now: Timestamp): (d: Doc)
    ensures d.Keys == {"id", "email", "name", "role", "createdAt"}
    ensures d["id"] == Str(token.uid) && d["email"] == Str(token.email) && d["createdAt"] == Stamp(now)
    ensures name != "" ==> d["name"] == Str(name)
    ensures name == "" ==> d["name"] == Str(EmailPrefix(token.email))
    ensures d["role"] == Str(if role != "" then role else DefaultRole)
  {
    map["id" := Str(token.uid), "email" := Str(token.email),
        "name" := Str(if name != "" then name else EmailPrefix(token.email)),
        "role" := Str(if role != "" then role else DefaultRole),
        "createdAt" := Stamp(now)]
  }

  /** A record as the users routes answer with it: `createdAt` as ISO text. */
  function WithIsoCreatedAt(d: Doc, c: TimeCodec): (r: Doc)
    requires "createdAt" in d && d["createdAt"].Stamp?
    ensures r.Keys == d.Keys
    ensures r["createdAt"] == Str(c.toIso(d["createdAt"].t))
    ensures forall f :: f in d && f != "createdAt" ==> r[f] == d[f]
  {
    d["createdAt" := Str(c.toIso(d["createdAt"].t))]
  }

  /** One entry of the listing: id, display name, email and role, dropping the undefined ones. */
  function UserSummary(u: DocSnapshot): (r: Doc)
    ensures "id" in r && r["id"] == Str(u.id)
    ensures "name" in r <==> ("name" in u.data && Truthy(u.data["name"])) || "email" in u.data
    ensures "name" in r ==> r["name"] == (if "name" in u.data && Truthy(u.data["name"]) then u.data["name"] else u.data["email"])
    ensures forall f :: f in {"email", "role"} ==> (f in r <==> f in u.data) && (f in r ==> r[f] == u.data[f])
    ensures r.Keys <= {"id", "name", "email", "role"}
  {
    var name := Or(Get(u.data, "name"), Get(u.data, "email"));
    var r := map["id" := Str(u.id)];
    var r := if name.Some? then r["name" := name.value] else r;
    var r := if "email" in u.data then r["email" := u.data["email"]] else r;
    if "role" in u.data then r["role" := u.data["role"]] else r
  }

  /** GET `/`: one summary per user document, in scan order. */
  function ListUsers(snapshot: seq<DocSnapshot>): (r: seq<Doc>)
    ensures |r| == |snapshot|
    ensures forall i :: 0 <= i < |r| ==> r[i] == UserSummary(snapshot[i])
  {
    seq(|snapshot|, i requires 0 <= i < |snapshot| => UserSummary(snapshot[i]))
  }

  /** The users collection, which only the create route writes. */
  class UserDirectory {
    var users: map<string, Doc>

    constructor (initial: map<string, Doc>)
      ensures users == initial
    {
      users := initial;
    }

    /** POST `/` for the caller `token`, with the optional `name` and `role` of the body ("" when absent). */
    method CreateUser(token: DecodedToken, name: string, role: string, now: Timestamp, c: TimeCodec)
      returns (res: CreateResult)
      modifies this
      ensures token.email == "" ==> res == MissingEmail && users == old(users)
      ensures token.email != "" && token.uid in old(users) ==> res == AlreadyExists && users == old(users)
      ensures token.email != "" && token.uid !in old(users) ==>
        && users == old(users)[token.uid := NewUserRecord(token, name, role, now)]
        && res == Created(WithIsoCreatedAt(NewUserRecord(token, name, role, now), c))
    {
      if token.email == "" {
        return MissingEmail;
      }
      if token.uid in users {
        return AlreadyExists;
      }
      var newUser := NewUserRecord(token, name, role, now);
      users := users[token.uid := newUser];
      return Created(WithIsoCreatedAt(newUser, c));
    }

    /** GET `/me` for the caller `uid`. */
    function GetMe(uid: string, c: TimeCodec): (r: Result<Doc, MeError>)
      reads this
      ensures uid !in users ==> r == Err(ProfileNotFound)
      ensures r.Ok? ==> && uid in users && "createdAt" in users[uid] && users[uid]["createdAt"].Stamp?
                        && r.value == WithIsoCreatedAt(users[uid], c)
      ensures uid in users && "createdAt" in users[uid] && users[uid]["createdAt"].Stamp? ==> r.Ok?
    {
      if uid !in users then Err(ProfileNotFound)
      else
        var userData := users[uid];
        if "createdAt" in userData && userData["createdAt"].Stamp? then Ok(WithIsoCreatedAt(userData, c))
        else Err(ServerError)
    }
  }

  /** Once a profile is stored by the create route, `/me` answers with exactly the data the create route answered with. */
  lemma CreatedProfileReadsBack(dir: UserDirectory, token: DecodedToken, name: string, role: string, now: Timestamp, c: TimeCodec)
    requires token.uid in dir.users && dir.users[token.uid] == NewUserRecord(token, name, role, now)
    ensures dir.GetMe(token.uid, c) == Ok(WithIsoCreatedAt(NewUserRecord(token, name, role, now), c))
  {
  }

  /** Over a snapshot of the collection, the listing has exactly one entry per stored user. */
  lemma ListingCoversUsers(users: map<string, Doc>, snapshot: seq<DocSnapshot>)
    requires SnapshotOf(users, snapshot)
    ensures |ListUsers(snapshot)| == |users|
    ensures forall id :: id in users <==> exists i :: 0 <= i < |snapshot| && ListUsers(snapshot)[i]["id"] == Str(id)
  {
    SnapshotSize(users, snapshot);
  }
}
