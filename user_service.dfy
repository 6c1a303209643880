/** api/user/user.service.js over an abstract `users` collection: the
    query criteria, the shape of the records `add`, `update` and
    `addGoogleUser` write, the password stripping of `query` and
    `getById`, and the lookup-then-insert of `getOrCreateGoogleUser`. */
module UserService {
  import opened Documents
  import opened JsArray

  /** A user record is a plain object. */
  type User = Fields

  // ---------------------------------------------------------------------
  // _buildCriteria

  /** `{ $regex: txt, $options: 'i' }`. */
  function TxtMatch(txt: Value): Value
  {
    Obj(map["$regex" := txt, "$options" := Str("i")])
  }

  /** `_buildCriteria`: a truthy `txt` asks for a case-insensitive match on
      the username or the fullname; a truthy `minBalance` asks for a score
      at least that high; each only when present. */
  function BuildCriteria(filterBy: Fields): (c: Fields)
    ensures "$or" in c <==> Truthy(Get(filterBy, "txt"))
    ensures "score" in c <==> Truthy(Get(filterBy, "minBalance"))
    ensures c.Keys <= {"$or", "score"}
    ensures "$or" in c ==> c["$or"] == List([Obj(map["username" := TxtMatch(filterBy["txt"])]),
                                              Obj(map["fullname" := TxtMatch(filterBy["txt"])])])
    ensures "score" in c ==> c["score"] == Obj(map["$gte" := filterBy["minBalance"]])
  {
    var txt := Get(filterBy, "txt");
    var minBalance := Get(filterBy, "minBalance");
    var withTxt: Fields :=
      if Truthy(txt) then map["$or" := List([Obj(map["username" := TxtMatch(txt)]), Obj(map["fullname" := TxtMatch(txt)])])]
      else map[];
    if Truthy(minBalance) then withTxt["score" := Obj(map["$gte" := minBalance])] else withTxt
  }

  /** With neither filter truthy (the default `{}` among them) the criteria
      match every user. */
  lemma NoFilterNoCriteria(filterBy: Fields)
    requires !Truthy(Get(filterBy, "txt")) && !Truthy(Get(filterBy, "minBalance"))
    ensures BuildCriteria(filterBy) == map[]
  {
  }

  /** The two filters are independent: the criteria are those of `txt`
      alone together with those of `minBalance` alone. */
  lemma CriteriaIndependent(filterBy: Fields)
    ensures BuildCriteria(filterBy) ==
      BuildCriteria(map k | k in filterBy && k == "txt" :: filterBy[k]) +
      BuildCriteria(map k | k in filterBy && k == "minBalance" :: filterBy[k])
  {
    var t := map k | k in filterBy && k == "txt" :: filterBy[k];
    var m := map k | k in filterBy && k == "minBalance" :: filterBy[k];
    assert Get(t, "txt") == Get(filterBy, "txt") && Get(t, "minBalance") == Undefined;
    assert Get(m, "minBalance") == Get(filterBy, "minBalance") && Get(m, "txt") == Undefined;
  }

  // ---------------------------------------------------------------------
  // Record shapes

  /** The record `add` inserts: six properties, with the score fixed. */
  function NewUserDoc(user: User): (doc: User)
    ensures doc.Keys == {"username", "password", "fullname", "imgUrl", "isAdmin", "score"}
    ensures forall k :: k in doc && k != "score" ==> doc[k] == Get(user, k)
    ensures doc["score"] == Num(100)
  {
    map["username" := Get(user, "username"), "password" := Get(user, "password"),
        "fullname" := Get(user, "fullname"), "imgUrl" := Get(user, "imgUrl"),
        "isAdmin" := Get(user, "isAdmin"), "score" := Num(100)]
  }

  /** `profile.<list>?.[0]?.value || ''`. */
  function FirstValueOr(list: Value): (v: Value)
    ensures Truthy(v) || v == Str("")
    ensures list.List? && |list.items| > 0 && list.items[0].Obj? && Truthy(Get(list.items[0].props, "value")) ==>
      v == Get(list.items[0].props, "value")
    ensures list.List? && (|list.items| == 0 || !list.items[0].Obj? || !Truthy(Get(list.items[0].props, "value"))) ==>
      v == Str("")
    ensures list.Str? || (!list.List? && !list.Obj?) ==> v == Str("")
  {
    var first :=
      match list
      case List(items) => if |items| > 0 then items[0] else Undefined
      case Obj(props) => Get(props, "0")
      case Str(s) => if |s| > 0 then Str([s[0]]) else Undefined
      case _ => Undefined;
    var value := if first.Obj? then Get(first.props, "value") else Undefined;
    if Truthy(value) then value else Str("")
  }

  /** The record `addGoogleUser` inserts: username and email both from the
      first email, the picture from the first photo, never an admin, the
      fixed score, and the clock's time. */
  function GoogleUserDoc(profile: Fields, now: int): (doc: User)
    ensures doc.Keys == {"googleId", "fullname", "username", "email", "imgUrl", "score", "isAdmin", "createdAt"}
    ensures doc["googleId"] == Get(profile, "id") && doc["fullname"] == Get(profile, "displayName")
    ensures doc["username"] == doc["email"] == FirstValueOr(Get(profile, "emails"))
    ensures doc["imgUrl"] == FirstValueOr(Get(profile, "photos"))
    ensures doc["score"] == Num(100) && doc["isAdmin"] == Bool(false) && doc["createdAt"] == Num(now)
    ensures "password" !in doc
  {
    map["googleId" := Get(profile, "id"), "fullname" := Get(profile, "displayName"),
        "username" := FirstValueOr(Get(profile, "emails")), "email" := FirstValueOr(Get(profile, "emails")),
        "imgUrl" := FirstValueOr(Get(profile, "photos")), "score" := Num(100),
        "isAdmin" := Bool(false), "createdAt" := Num(now)]
  }

  /** A Google profile without emails or photos gives empty strings, not
      undefined. */
  lemma GoogleUserWithoutEmail(profile: Fields, now: int)
    requires "emails" !in profile && "photos" !in profile
    ensures GoogleUserDoc(profile, now)["username"] == Str("")
    ensures GoogleUserDoc(profile, now)["email"] == Str("")
    ensures GoogleUserDoc(profile, now)["imgUrl"] == Str("")
  {
  }

  /** A stored record carries an ObjectId `_id`. */
  predicate Stored(doc: User)
  {
    "_id" in doc && doc["_id"].ObjectId?
  }

  /** A user as `query` returns it: no password, and `createdAt` read off
      the ObjectId (`getTimestamp`, a parameter here). */
  function QueryView(doc: User, timestamp: string -> int): (u: User)
    requires Stored(doc)
    ensures u.Keys == doc.Keys - {"password"} + {"createdAt"}
    ensures "password" !in u && u["createdAt"] == Time(timestamp(doc["_id"].hex))
    ensures forall k :: k in doc && k != "password" && k != "createdAt" ==> u[k] == doc[k]
  {
    (doc - {"password"})["createdAt" := Time(timestamp(doc["_id"].hex))]
  }

  /** The records `query` returns for the records `ds`: those `keep`
      accepts, in order, each as QueryView shows it. */
  function QueryViews(ds: seq<User>, keep: User -> bool, timestamp: string -> int): (r: seq<User>)
    requires forall i :: 0 <= i < |ds| ==> Stored(ds[i])
    ensures |r| == |Filter(ds, keep)|
    ensures forall k :: 0 <= k < |r| ==> "password" !in r[k]
    ensures forall k :: 0 <= k < |r| ==> Stored(Filter(ds, keep)[k]) && r[k] == QueryView(Filter(ds, keep)[k], timestamp)
  {
    var kept := Filter(ds, keep);
    assert forall k :: 0 <= k < |kept| ==> kept[k] in ds;
    seq(|kept|, k requires 0 <= k < |kept| => QueryView(kept[k], timestamp))
  }

  /** Querying a concatenation queries each part. */
  lemma QueryViewsAppend(a: seq<User>, b: seq<User>, keep: User -> bool, timestamp: string -> int)
    requires forall i :: 0 <= i < |a| ==> Stored(a[i])
    requires forall i :: 0 <= i < |b| ==> Stored(b[i])
    ensures forall i :: 0 <= i < |a + b| ==> Stored((a + b)[i])
    ensures QueryViews(a + b, keep, timestamp) == QueryViews(a, keep, timestamp) + QueryViews(b, keep, timestamp)
  {
    assert forall i :: 0 <= i < |a + b| ==> (a + b)[i] == if i < |a| then a[i] else b[i - |a|];
    FilterAppend(a, b, keep);
  }

  /** Querying one record: its view when it matches, nothing otherwise. */
  lemma QueryViewsOne(d: User, keep: User -> bool, timestamp: string -> int)
    requires Stored(d)
    ensures QueryViews([d], keep, timestamp) == if keep(d) then [QueryView(d, timestamp)] else []
  {
    assert [d][1..] == [];
    assert Filter([d], keep) == if keep(d) then [d] else [];
  }

  /** `delete review.byUser` on each review of `getById`. */
  function WithoutByUser(review: Value): (r: Value)
    ensures r.Obj? ==> "byUser" !in r.props
    ensures review.Obj? ==> r.Obj? && r.props.Keys == review.props.Keys - {"byUser"}
    ensures !review.Obj? ==> r == review
  {
    if review.Obj? then Obj(review.props - {"byUser"}) else review
  }

  /** A user as `getById` returns it: no password, and the reviews the user
      gave (the review service's answer, a parameter here) without their
      `byUser`. */
  function GetByIdView(doc: User, reviews: seq<Value>): (u: User)
    ensures "password" !in u && "givenReviews" in u && u["givenReviews"].List?
    ensures |u["givenReviews"].items| == |reviews|
    ensures forall k :: 0 <= k < |reviews| ==> u["givenReviews"].items[k] == WithoutByUser(reviews[k])
    ensures forall k :: k in doc && k != "password" && k != "givenReviews" ==> k in u && u[k] == doc[k]
  {
    var given := seq(|reviews|, k requires 0 <= k < |reviews| => WithoutByUser(reviews[k]));
    (doc - {"password"})["givenReviews" := List(given)]
  }

  /** A hexadecimal digit, in either case. */
  predicate IsHexDigit(c: char)
  {
    '0' <= c <= '9' || 'a' <= c <= 'f' || 'A' <= c <= 'F'
  }

  /** What `ObjectId.createFromHexString` accepts: exactly 24 hexadecimal
      digits. Anything else makes it throw. */
  predicate IsObjectIdHex(s: string)
  {
    |s| == 24 && forall k :: 0 <= k < |s| ==> IsHexDigit(s[k])
  }

  /** The number a hexadecimal digit stands for. */
  function HexValue(c: char): (v: nat)
    requires IsHexDigit(c)
    ensures v < 16
  {
    if '0' <= c <= '9' then c as int - '0' as int
    else if 'a' <= c <= 'f' then c as int - 'a' as int + 10
    else c as int - 'A' as int + 10
  }

  /** A digit as an ObjectId writes itself back: in lower case. */
  function LowerHex(c: char): (d: char)
    ensures IsHexDigit(d) <==> IsHexDigit(c)
    ensures IsHexDigit(c) ==> HexValue(d) == HexValue(c)
    ensures !('A' <= d <= 'F')
  {
    if 'A' <= c <= 'F' then (c as int - 'A' as int + 'a' as int) as char else c
  }

  /** Hex text with no upper-case digit: the form ObjectId ids take here. */
  predicate LowerCaseHex(s: string)
  {
    forall k :: 0 <= k < |s| ==> !('A' <= s[k] <= 'F')
  }

  /** `ObjectId.createFromHexString(s)`: the id is the bytes the digits
      spell, so the letter case of the text is lost. The id is written here
      as its lower-case hex text, as `toHexString` gives it back. */
  function ObjectIdFromHex(s: string): (v: Value)
    ensures v.ObjectId? && |v.hex| == |s| && LowerCaseHex(v.hex)
    ensures IsObjectIdHex(s) ==> IsObjectIdHex(v.hex)
    ensures LowerCaseHex(s) ==> v.hex == s
  {
    ObjectId(seq(|s|, k requires 0 <= k < |s| => LowerHex(s[k])))
  }

  /** Two digits with the same value are the same once lower-cased. */
  lemma SameDigit(c: char, d: char)
    requires IsHexDigit(c) && IsHexDigit(d) && HexValue(c) == HexValue(d)
    ensures LowerHex(c) == LowerHex(d)
  {
  }

  /** Two hex texts give the same ObjectId exactly when they spell the same
      digits, whatever the letter case of either. */
  lemma SameObjectId(a: string, b: string)
    requires IsObjectIdHex(a) && IsObjectIdHex(b)
    ensures ObjectIdFromHex(a) == ObjectIdFromHex(b) <==> forall k :: 0 <= k < 24 ==> HexValue(a[k]) == HexValue(b[k])
  {
    if forall k :: 0 <= k < 24 ==> HexValue(a[k]) == HexValue(b[k]) {
      forall k | 0 <= k < 24
        ensures ObjectIdFromHex(a).hex[k] == ObjectIdFromHex(b).hex[k]
      {
        SameDigit(a[k], b[k]);
      }
    }
    if ObjectIdFromHex(a) == ObjectIdFromHex(b) {
      forall k | 0 <= k < 24
        ensures HexValue(a[k]) == HexValue(b[k])
      {
        assert LowerHex(a[k]) == ObjectIdFromHex(a).hex[k] == ObjectIdFromHex(b).hex[k] == LowerHex(b[k]);
      }
    }
  }

  /** What `update` writes: the id, the fullname and the score, and nothing
      else; an `_id` that is not a string of 24 hex digits makes
      `createFromHexString` throw. */
  function UpdateDoc(user: User): (r: Result<User>)
    ensures r.Ok? <==> Get(user, "_id").Str? && IsObjectIdHex(Get(user, "_id").s)
    ensures r.Err? ==> r.error == InvalidObjectId
    ensures r.Ok? ==> r.value.Keys == {"_id", "fullname", "score"}
    ensures r.Ok? ==>
      (r.value["_id"] == ObjectIdFromHex(Get(user, "_id").s) &&
       r.value["fullname"] == Get(user, "fullname") && r.value["score"] == Get(user, "score"))
  {
    var id := Get(user, "_id");
    if !id.Str? || !IsObjectIdHex(id.s) then Err(InvalidObjectId)
    else Ok(map["_id" := ObjectIdFromHex(id.s), "fullname" := Get(user, "fullname"), "score" := Get(user, "score")])
  }

  /** Deleting the record at i from records with distinct ids leaves no
      record with its id, keeps every other record, and keeps the ids
      distinct. */
  lemma RemoveStored(docs: seq<User>, i: nat, id: Value)
    requires
      && i < |docs|
      && (forall k :: 0 <= k < |docs| ==> "_id" in docs[k] && docs[k]["_id"].ObjectId? && LowerCaseHex(docs[k]["_id"].hex))
      && (forall k, j :: 0 <= k < j < |docs| ==> docs[k]["_id"] != docs[j]["_id"])
      && docs[i]["_id"] == id
    ensures var rest := RemoveAt(docs, i);
      && (forall k :: 0 <= k < |rest| ==> Stored(rest[k]) && LowerCaseHex(rest[k]["_id"].hex))
      && (forall k, j :: 0 <= k < j < |rest| ==> rest[k]["_id"] != rest[j]["_id"])
      && (forall k :: 0 <= k < |rest| ==> rest[k]["_id"] != id)
      && (forall d :: d in docs && d["_id"] != id ==> d in rest)
      && (forall d :: d in rest ==> d in docs)
  {
    var rest := RemoveAt(docs, i);
    assert forall k :: 0 <= k < |rest| ==> rest[k] == if k < i then docs[k] else docs[k + 1];
    forall k | 0 <= k < |docs| && docs[k]["_id"] != id
      ensures docs[k] in rest
    {
      assert rest[if k < i then k else k - 1] == docs[k];
    }
  }

  /** `collection.find(criteria)` keeps a record when the criteria match it;
      the query language itself is a parameter. */
  function Matching(criteria: Fields, matches: (Fields, User) -> bool): User -> bool
  {
    (doc: User) => matches(criteria, doc)
  }

  /** The record has the given value at the key (`findOne({key: value})`,
      read as plain equality). */
  function HasValue(key: string, value: Value): User -> bool
  {
    (doc: User) => Get(doc, key) == value
  }

  /** The `users` collection, in insertion order. */
  class UserCollection {
    var docs: seq<User>

    /** Every record has an ObjectId `_id`, written in lower case, and no
        two share one. */
    ghost predicate Valid()
      reads this
    {
      && (forall i :: 0 <= i < |docs| ==> Stored(docs[i]) && LowerCaseHex(docs[i]["_id"].hex))
      && (forall i, j :: 0 <= i < j < |docs| ==> docs[i]["_id"] != docs[j]["_id"])
    }

    constructor ()
      ensures Valid() && docs == []
    {
      docs := [];
    }

    /** `findOne({key: value})`. */
    function FindOne(key: string, value: Value): (r: Option<User>)
      reads this
      ensures r.None? <==> forall i :: 0 <= i < |docs| ==> Get(docs[i], key) != value
      ensures r.Some? ==> exists i :: (0 <= i < |docs| && docs[i] == r.value && Get(r.value, key) == value &&
        forall k :: 0 <= k < i ==> Get(docs[k], key) != value)
    {
      var i := FindIndex(docs, HasValue(key, value));
      if i < 0 then None else Some(docs[i])
    }

    /** `getByUsername`: the stored record, password included. */
    function GetByUsername(username: Value): (r: Option<User>)
      reads this
      ensures r == FindOne("username", username)
      ensures r.Some? ==> Get(r.value, "username") == username
    {
      FindOne("username", username)
    }

    /** `getByGoogleId`. */
    function GetByGoogleId(googleId: Value): (r: Option<User>)
      reads this
      ensures r == FindOne("googleId", googleId)
      ensures r.Some? ==> Get(r.value, "googleId") == googleId
    {
      FindOne("googleId", googleId)
    }

    /** `getById`: the record with the id, without its password and with the
        reviews it gave; none when no record has the id, and an error when
        the id is not 24 hex digits. */
    function GetById(userId: string, reviews: seq<Value>): (r: Result<Option<User>>)
      reads this
      ensures r.Err? <==> !IsObjectIdHex(userId)
      ensures r.Err? ==> r.error == InvalidObjectId
      ensures r.Ok? ==> (r.value.Some? <==> exists i :: 0 <= i < |docs| && Get(docs[i], "_id") == ObjectIdFromHex(userId))
      ensures r.Ok? && r.value.Some? ==>
        exists i :: 0 <= i < |docs| && Get(docs[i], "_id") == ObjectIdFromHex(userId) &&
          (forall k :: 0 <= k < i ==> Get(docs[k], "_id") != ObjectIdFromHex(userId)) &&
          r.value.value == GetByIdView(docs[i], reviews)
    {
      if !IsObjectIdHex(userId) then Err(InvalidObjectId)
      else
        var found := FindOne("_id", ObjectIdFromHex(userId));
        if found.None? then Ok(None) else Ok(Some(GetByIdView(found.value, reviews)))
    }

    /** `getById` finds the same user whatever the letter case of the id. */
    lemma GetByIdIgnoresCase(a: string, b: string, reviews: seq<Value>)
      requires IsObjectIdHex(a) && IsObjectIdHex(b)
      requires forall k :: 0 <= k < 24 ==> HexValue(a[k]) == HexValue(b[k])
      ensures GetById(a, reviews) == GetById(b, reviews)
    {
      SameObjectId(a, b);
    }

    /** `query`: every matching record, in order, without its password and
        stamped with its creation time. */
    method Query(filterBy: Fields, matches: (Fields, User) -> bool, timestamp: string -> int) returns (users: seq<User>)
      requires Valid()
      ensures users == QueryViews(docs, Matching(BuildCriteria(filterBy), matches), timestamp)
    {
      var criteria := BuildCriteria(filterBy);
      var keep := Matching(criteria, matches);
      users := [];
      var i := 0;
      while i < |docs|
        invariant 0 <= i <= |docs|
        invariant users == QueryViews(docs[..i], keep, timestamp)
      {
        assert docs[..i + 1] == docs[..i] + [docs[i]];
        QueryViewsAppend(docs[..i], [docs[i]], keep, timestamp);
        QueryViewsOne(docs[i], keep, timestamp);
        if matches(criteria, docs[i]) {
          users := users + [QueryView(docs[i], timestamp)];
        }
        i := i + 1;
      }
      assert docs[..i] == docs;
    }

    /** `add`: the six-property record is inserted under the id the insert
        reports; it is returned with that id and without the password. */
    method Add(user: User, insertedId: string) returns (r: Result<User>)
      requires Valid()
      modifies this
      ensures Valid()
      ensures (exists i :: 0 <= i < |old(docs)| && old(docs)[i]["_id"] == ObjectIdFromHex(insertedId)) ==>
        r == Err(DuplicateKey) && docs == old(docs)
      ensures (forall i :: 0 <= i < |old(docs)| ==> old(docs)[i]["_id"] != ObjectIdFromHex(insertedId)) ==>
        docs == old(docs) + [NewUserDoc(user)["_id" := ObjectIdFromHex(insertedId)]] &&
        r == Ok(docs[|docs| - 1] - {"password"})
      ensures r.Ok? ==> "password" !in r.value && r.value["_id"] == ObjectIdFromHex(insertedId) && r.value["score"] == Num(100)
    {
      var found := FindOne("_id", ObjectIdFromHex(insertedId));
      if found.Some? {
        return Err(DuplicateKey);
      }
      var userToAdd := NewUserDoc(user)["_id" := ObjectIdFromHex(insertedId)];
      docs := docs + [userToAdd];
      r := Ok(userToAdd - {"password"});
    }

    /** `update`: `$set` of the id, fullname and score on the record with
        the id (none when no record has it); the written record is
        returned. */
    method Update(user: User) returns (r: Result<User>)
      requires Valid()
      modifies this
      ensures Valid()
      ensures r == UpdateDoc(user)
      ensures r.Err? ==> docs == old(docs)
      ensures |docs| == |old(docs)|
      ensures r.Ok? ==> forall i :: 0 <= i < |docs| ==>
        docs[i] == (if old(docs)[i]["_id"] == r.value["_id"] then old(docs)[i] + r.value else old(docs)[i])
    {
      r := UpdateDoc(user);
      if r.Err? {
        return;
      }
      var toSave := r.value;
      var i := FindIndex(docs, HasValue("_id", toSave["_id"]));
      if i >= 0 {
        docs := docs[i := docs[i] + toSave];
      }
    }

    /** `addGoogleUser`: the Google record is inserted under the id the
        insert reports and returned with it. */
    method AddGoogleUser(profile: Fields, insertedId: string, now: int) returns (r: Result<User>)
      requires Valid()
      modifies this
      ensures Valid()
      ensures (exists i :: 0 <= i < |old(docs)| && old(docs)[i]["_id"] == ObjectIdFromHex(insertedId)) ==>
        r == Err(DuplicateKey) && docs == old(docs)
      ensures (forall i :: 0 <= i < |old(docs)| ==> old(docs)[i]["_id"] != ObjectIdFromHex(insertedId)) ==>
        r == Ok(GoogleUserDoc(profile, now)["_id" := ObjectIdFromHex(insertedId)]) && docs == old(docs) + [r.value]
    {
      var found := FindOne("_id", ObjectIdFromHex(insertedId));
      if found.Some? {
        return Err(DuplicateKey);
      }
      var userToAdd := GoogleUserDoc(profile, now)["_id" := ObjectIdFromHex(insertedId)];
      docs := docs + [userToAdd];
      r := Ok(userToAdd);
    }

    /** `getOrCreateGoogleUser`: the record with the profile's Google id when
        there is one, and nothing inserted; otherwise `addGoogleUser`. */
    method GetOrCreateGoogleUser(profile: Fields, insertedId: string, now: int) returns (r: Result<User>)
      requires Valid()
      modifies this
      ensures Valid()
      ensures old(GetByGoogleId(Get(profile, "id"))).Some? ==>
        r == Ok(old(GetByGoogleId(Get(profile, "id"))).value) && docs == old(docs)
      ensures old(GetByGoogleId(Get(profile, "id"))).None? && (forall i :: 0 <= i < |old(docs)| ==> old(docs)[i]["_id"] != ObjectIdFromHex(insertedId)) ==>
        r == Ok(GoogleUserDoc(profile, now)["_id" := ObjectIdFromHex(insertedId)]) && docs == old(docs) + [r.value]
    {
      var user := GetByGoogleId(Get(profile, "id"));
      if user.Some? {
        return Ok(user.value);
      }
      r := AddGoogleUser(profile, insertedId, now);
    }

    /** `remove`: the record with the id is deleted; an id that is not 24
        hex digits throws before anything is deleted. */
    method Remove(userId: string) returns (r: Result<()>)
      requires Valid()
      modifies this
      ensures Valid()
      ensures r.Err? <==> !IsObjectIdHex(userId)
      ensures r.Err? ==> r.error == InvalidObjectId && docs == old(docs)
      ensures r.Ok? ==> forall i :: 0 <= i < |docs| ==> docs[i]["_id"] != ObjectIdFromHex(userId)
      ensures r.Ok? ==> forall d :: d in old(docs) && d["_id"] != ObjectIdFromHex(userId) ==> d in docs
      ensures forall d :: d in docs ==> d in old(docs)
    {
      if !IsObjectIdHex(userId) {
        return Err(InvalidObjectId);
      }
      var i := FindIndex(docs, HasValue("_id", ObjectIdFromHex(userId)));
      if i >= 0 {
        RemoveStored(docs, i, ObjectIdFromHex(userId));
        docs := RemoveAt(docs, i);
      }
      r := Ok(());
    }
  }
}
