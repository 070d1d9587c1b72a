/**
 * The message controller's three handlers: the conversation between two
 * users, the contact list built by an aggregation over the message
 * collection, and the path an uploaded file is moved to. Each handler is a
 * function of its request fields and of the store's collections.
 */
module MessageController {
  import opened Models
  import opened Query

  /** A handler's reply: a 200 with its payload, or an error status and text. */
  datatype Outcome<T> = Ok(value: T) | Failed(status: int, text: string)

  const BothIdsRequired := "Both user ID's are required."

  // ---------------------------------------------------------------------------
  // getMessages

  /** The `$or` filter: `m` was sent from one of the two users to the other. */
  predicate InConversation(m: Message, u1: UserId, u2: UserId)
  {
    (m.sender == u1 && m.recipient == u2) || (m.sender == u2 && m.recipient == u1)
  }

  function Timestamp(m: Message): int
  {
    m.timestamp
  }

  /** The sort key of `{ timestamp: -1 }`. */
  function NewestFirst(m: Message): int
  {
    -m.timestamp
  }

  /** The conversation between the requesting user and `request.body.id`,
      oldest message first; 400 when either id is missing or empty. */
  function GetMessages(user1: Option<UserId>, user2: Option<UserId>, messages: seq<Message>)
    : (r: Outcome<seq<Message>>)
    ensures r.Failed? <==> !Truthy(user1) || !Truthy(user2)
    ensures r.Failed? ==> r == Failed(400, BothIdsRequired)
    ensures r.Ok? ==> SortedBy(r.value, Timestamp)
    ensures r.Ok? ==> forall m :: m in r.value <==> m in messages && InConversation(m, user1.value, user2.value)
    ensures r.Ok? ==> forall m :: multiset(r.value)[m] ==
                        if InConversation(m, user1.value, user2.value) then multiset(messages)[m] else 0
  {
    if !Truthy(user1) || !Truthy(user2) then
      Failed(400, BothIdsRequired)
    else
      var u1, u2 := user1.value, user2.value;
      var found := Where(messages, m => InConversation(m, u1, u2));
      var sorted := SortBy(found, Timestamp);
      assert forall m :: m in sorted <==> m in multiset(found);
      Ok(sorted)
  }

  // ---------------------------------------------------------------------------
  // getContactsForDMList

  /** The `$match` stage: the viewer sent or received `m`. */
  predicate Involves(m: Message, viewer: UserId)
  {
    m.sender == viewer || m.recipient == viewer
  }

  /** The `$group` key: the recipient when the viewer sent `m`, else the sender. */
  function Partner(m: Message, viewer: UserId): UserId
  {
    if m.sender == viewer then m.recipient else m.sender
  }

  /** `m` was exchanged between the viewer and `partner`. */
  predicate Between(m: Message, viewer: UserId, partner: UserId)
  {
    Involves(m, viewer) && Partner(m, viewer) == partner
  }

  /** One output document of the `$group` stage. */
  datatype Group = Group(id: UserId, lastMessageTime: int)

  function GroupId(g: Group): UserId
  {
    g.id
  }

  /** Keeps the groups whose key is not `partner`. */
  function OtherPartner(partner: UserId): Group -> bool
  {
    (g: Group) => g.id != partner
  }

  /** The `$group` stage with `lastMessageTime: { $first: "$timestamp" }`:
      one group per partner, carrying the timestamp of the first message (in
      the order given) exchanged with that partner. */
  function GroupByPartner(ms: seq<Message>, viewer: UserId): seq<Group>
  {
    if ms == [] then []
    else
      var p := Partner(ms[0], viewer);
      [Group(p, ms[0].timestamp)] + Where(GroupByPartner(ms[1..], viewer), OtherPartner(p))
  }

  /** Grouping yields each partner at most once. */
  lemma {:induction false} GroupDistinct(ms: seq<Message>, viewer: UserId)
    ensures DistinctBy(GroupByPartner(ms, viewer), GroupId)
  {
    if ms != [] {
      var p := Partner(ms[0], viewer);
      var rest := GroupByPartner(ms[1..], viewer);
      GroupDistinct(ms[1..], viewer);
      WhereKeepsDistinct(rest, OtherPartner(p), GroupId);
      ConsDistinct(Group(p, ms[0].timestamp), Where(rest, OtherPartner(p)), GroupId);
    }
  }

  /** Every group carries the partner and timestamp of one of the messages. */
  lemma {:induction false} GroupFromMessage(ms: seq<Message>, viewer: UserId)
    ensures forall g :: g in GroupByPartner(ms, viewer) ==>
              exists m :: m in ms && Partner(m, viewer) == g.id && m.timestamp == g.lastMessageTime
  {
    if ms != [] {
      var p := Partner(ms[0], viewer);
      var head := Group(p, ms[0].timestamp);
      var rest := GroupByPartner(ms[1..], viewer);
      GroupFromMessage(ms[1..], viewer);
      forall g | g in GroupByPartner(ms, viewer)
        ensures exists m :: m in ms && Partner(m, viewer) == g.id && m.timestamp == g.lastMessageTime
      {
        if g == head {
          assert ms[0] in ms;
        } else {
          assert g in rest;
          var m :| m in ms[1..] && Partner(m, viewer) == g.id && m.timestamp == g.lastMessageTime;
          assert m in ms;
        }
      }
    }
  }

  /** Every partner of the messages has a group. */
  lemma {:induction false} GroupCoversPartners(ms: seq<Message>, viewer: UserId)
    ensures forall m :: m in ms ==> exists g :: g in GroupByPartner(ms, viewer) && g.id == Partner(m, viewer)
  {
    if ms != [] {
      var p := Partner(ms[0], viewer);
      var head := Group(p, ms[0].timestamp);
      var rest := GroupByPartner(ms[1..], viewer);
      var gs := GroupByPartner(ms, viewer);
      GroupCoversPartners(ms[1..], viewer);
      forall m | m in ms ensures exists g :: g in gs && g.id == Partner(m, viewer)
      {
        if Partner(m, viewer) == p {
          assert head in gs;
        } else {
          var k :| 0 <= k < |ms| && ms[k] == m;
          assert k != 0;
          assert m in ms[1..] by { assert ms[1..][k - 1] == m; }
          var g :| g in rest && g.id == Partner(m, viewer);
          assert OtherPartner(p)(g);
          assert g in Where(rest, OtherPartner(p));
        }
      }
    }
  }

  /** Over messages sorted newest first, `$first` is the newest timestamp of
      each partner's messages. */
  lemma {:induction false} GroupTakesNewest(ms: seq<Message>, viewer: UserId)
    requires SortedBy(ms, NewestFirst)
    ensures forall g, m :: g in GroupByPartner(ms, viewer) && m in ms && Partner(m, viewer) == g.id
                           ==> m.timestamp <= g.lastMessageTime
  {
    if ms != [] {
      var p := Partner(ms[0], viewer);
      assert SortedBy(ms[1..], NewestFirst) by {
        forall i, j | 0 <= i < j < |ms[1..]| ensures NewestFirst(ms[1..][i]) <= NewestFirst(ms[1..][j]) {
          assert ms[1..][i] == ms[i + 1] && ms[1..][j] == ms[j + 1];
        }
      }
      GroupTakesNewest(ms[1..], viewer);
      forall g, m | g in GroupByPartner(ms, viewer) && m in ms && Partner(m, viewer) == g.id
        ensures m.timestamp <= g.lastMessageTime
      {
        var k :| 0 <= k < |ms| && ms[k] == m;
        if g == Group(p, ms[0].timestamp) {
          assert NewestFirst(ms[0]) <= NewestFirst(ms[k]);
        } else {
          assert g in Where(GroupByPartner(ms[1..], viewer), OtherPartner(p));
          assert k != 0;
          assert m == ms[1..][k - 1];
        }
      }
    }
  }

  /** A projected `$contactInfo` field path: the name must match a stored
      field exactly, or the path resolves to nothing. */
  function StringField(u: User, path: string): Option<string>
  {
    if path == "email" then Some(u.email)
    else if path == "firstName" then u.firstName
    else if path == "lastName" then u.lastName
    else if path == "image" then u.image
    else None
  }

  /** One document of the contact list after `$project`. */
  datatype Contact = Contact(
    id: UserId,
    lastMessageTime: int,
    email: Option<string>,
    firstName: Option<string>,
    lastName: Option<string>,
    image: Option<string>,
    color: Option<int>)

  function ContactId(c: Contact): UserId
  {
    c.id
  }

  /** The sort key of `{ lastMessageTime: -1 }`. */
  function LatestFirst(c: Contact): int
  {
    -c.lastMessageTime
  }

  /** The `$project` stage, with the paths as the pipeline writes them. */
  function Project(g: Group, contactInfo: User): Contact
  {
    Contact(g.id, g.lastMessageTime,
            StringField(contactInfo, "email"),
            StringField(contactInfo, "firstName"),
            StringField(contactInfo, " lastName"),
            StringField(contactInfo, "image"),
            contactInfo.color)
  }

  /** `$lookup` into users by id followed by `$unwind` and `$project`: a group
      whose partner has no user record yields no document. */
  function LookupUsers(gs: seq<Group>, users: map<UserId, User>): (cs: seq<Contact>)
    ensures forall c :: c in cs ==> exists g :: g in gs && g.id in users && c == Project(g, users[g.id])
    ensures forall g :: g in gs && g.id in users ==> Project(g, users[g.id]) in cs
  {
    if gs == [] then []
    else
      assert forall g :: g in gs ==> g == gs[0] || g in gs[1..];
      var rest := LookupUsers(gs[1..], users);
      if gs[0].id in users then [Project(gs[0], users[gs[0].id])] + rest else rest
  }

  /** Each partner keeps at most one document through the join. */
  lemma {:induction false} LookupUsersDistinct(gs: seq<Group>, users: map<UserId, User>)
    requires DistinctBy(gs, GroupId)
    ensures DistinctBy(LookupUsers(gs, users), ContactId)
  {
    if gs != [] {
      HeadTailDistinct(gs, GroupId);
      LookupUsersDistinct(gs[1..], users);
      if gs[0].id in users {
        ConsDistinct(Project(gs[0], users[gs[0].id]), LookupUsers(gs[1..], users), ContactId);
      }
    }
  }

  /** The whole aggregation pipeline for the viewer. */
  function GetContactsForDMList(messages: seq<Message>, viewer: UserId, users: map<UserId, User>): seq<Contact>
  {
    var matched := Where(messages, m => Involves(m, viewer));
    var newestFirst := SortBy(matched, NewestFirst);
    var groups := GroupByPartner(newestFirst, viewer);
    SortBy(LookupUsers(groups, users), LatestFirst)
  }

  /** Each partner appears at most once in the contact list. */
  lemma ContactsDistinct(messages: seq<Message>, viewer: UserId, users: map<UserId, User>)
    ensures DistinctBy(GetContactsForDMList(messages, viewer, users), ContactId)
  {
    var newestFirst := SortBy(Where(messages, m => Involves(m, viewer)), NewestFirst);
    var groups := GroupByPartner(newestFirst, viewer);
    GroupDistinct(newestFirst, viewer);
    LookupUsersDistinct(groups, users);
    SortKeepsDistinct(LookupUsers(groups, users), LatestFirst, ContactId);
  }

  /** The contact list runs from the most recent conversation to the oldest. */
  lemma ContactsNewestFirst(messages: seq<Message>, viewer: UserId, users: map<UserId, User>)
    ensures var cs := GetContactsForDMList(messages, viewer, users);
      forall i, j :: 0 <= i < j < |cs| ==> cs[i].lastMessageTime >= cs[j].lastMessageTime
  {
    var cs := GetContactsForDMList(messages, viewer, users);
    forall i, j | 0 <= i < j < |cs| ensures cs[i].lastMessageTime >= cs[j].lastMessageTime {
      assert LatestFirst(cs[i]) <= LatestFirst(cs[j]);
    }
  }

  /** Every contact has a user record, and its `lastMessageTime` is the newest
      timestamp among the messages exchanged between the viewer and it. */
  lemma ContactsCarryLatestTime(messages: seq<Message>, viewer: UserId, users: map<UserId, User>)
    ensures forall c :: c in GetContactsForDMList(messages, viewer, users) ==>
      && c.id in users
      && (exists m :: m in messages && Between(m, viewer, c.id) && m.timestamp == c.lastMessageTime)
      && (forall m :: m in messages && Between(m, viewer, c.id) ==> m.timestamp <= c.lastMessageTime)
  {
    var matched := Where(messages, m => Involves(m, viewer));
    var newestFirst := SortBy(matched, NewestFirst);
    var groups := GroupByPartner(newestFirst, viewer);
    var joined := LookupUsers(groups, users);
    SortSameElements(matched, NewestFirst);
    SortSameElements(joined, LatestFirst);
    GroupFromMessage(newestFirst, viewer);
    GroupTakesNewest(newestFirst, viewer);
    forall c | c in GetContactsForDMList(messages, viewer, users)
      ensures c.id in users
      ensures exists m :: m in messages && Between(m, viewer, c.id) && m.timestamp == c.lastMessageTime
      ensures forall m :: m in messages && Between(m, viewer, c.id) ==> m.timestamp <= c.lastMessageTime
    {
      assert c in joined;
      var g :| g in groups && g.id in users && c == Project(g, users[g.id]);
      var w :| w in newestFirst && Partner(w, viewer) == g.id && w.timestamp == g.lastMessageTime;
      assert w in messages && Between(w, viewer, c.id);
      forall m | m in messages && Between(m, viewer, c.id) ensures m.timestamp <= c.lastMessageTime {
        assert m in newestFirst;
      }
    }
  }

  /** Every partner of the viewer that has a user record is listed. */
  lemma ContactsComplete(messages: seq<Message>, viewer: UserId, users: map<UserId, User>)
    ensures forall m :: m in messages && Involves(m, viewer) && Partner(m, viewer) in users ==>
      exists c :: c in GetContactsForDMList(messages, viewer, users) && c.id == Partner(m, viewer)
  {
    var matched := Where(messages, m => Involves(m, viewer));
    var newestFirst := SortBy(matched, NewestFirst);
    var groups := GroupByPartner(newestFirst, viewer);
    var joined := LookupUsers(groups, users);
    SortSameElements(matched, NewestFirst);
    SortSameElements(joined, LatestFirst);
    GroupCoversPartners(newestFirst, viewer);
    forall m | m in messages && Involves(m, viewer) && Partner(m, viewer) in users
      ensures exists c :: c in GetContactsForDMList(messages, viewer, users) && c.id == Partner(m, viewer)
    {
      assert m in newestFirst;
      var g :| g in groups && g.id == Partner(m, viewer);
      assert Project(g, users[g.id]) in joined;
    }
  }

  /** The projection's `lastName` path carries a stray space, so no joined
      document carries its user's last name; the other fields are copied. */
  lemma JoinedLackLastName(gs: seq<Group>, users: map<UserId, User>)
    ensures forall c :: c in LookupUsers(gs, users) ==>
      c.id in users && c.lastName == None &&
      c.email == Some(users[c.id].email) && c.firstName == users[c.id].firstName &&
      c.image == users[c.id].image && c.color == users[c.id].color
  {
    forall c | c in LookupUsers(gs, users)
      ensures c.id in users && c.lastName == None
      ensures c.email == Some(users[c.id].email) && c.firstName == users[c.id].firstName
      ensures c.image == users[c.id].image && c.color == users[c.id].color
    {
      var g :| g in gs && g.id in users && c == Project(g, users[g.id]);
    }
  }

  /** Hence no contact ever carries its user's last name, while email and
      first name, image and colour are copied. */
  lemma ContactsLackLastName(messages: seq<Message>, viewer: UserId, users: map<UserId, User>)
    ensures forall c :: c in GetContactsForDMList(messages, viewer, users) ==>
      c.id in users && c.lastName == None &&
      c.email == Some(users[c.id].email) && c.firstName == users[c.id].firstName &&
      c.image == users[c.id].image && c.color == users[c.id].color
  {
    var groups := GroupByPartner(SortBy(Where(messages, m => Involves(m, viewer)), NewestFirst), viewer);
    var joined := LookupUsers(groups, users);
    assert GetContactsForDMList(messages, viewer, users) == SortBy(joined, LatestFirst);
    SortSameElements(joined, LatestFirst);
    JoinedLackLastName(groups, users);
  }

  /** A message the viewer sent to itself lists the viewer as its own contact. */
  lemma SelfMessageListsViewer(messages: seq<Message>, viewer: UserId, users: map<UserId, User>, m: Message)
    requires m in messages && m.sender == viewer && m.recipient == viewer
    requires viewer in users
    ensures exists c :: c in GetContactsForDMList(messages, viewer, users) && c.id == viewer
  {
    ContactsComplete(messages, viewer, users);
  }

  /** A viewer exchanges messages with `a` at t1 and t3 and with `b` at t2:
      `a` comes first, with t3, because its newest message is the newest. */
  lemma ContactOrderExample(messages: seq<Message>, viewer: UserId, a: UserId, b: UserId,
                            users: map<UserId, User>, m1: Message, m2: Message, m3: Message)
    requires forall m :: m in messages <==> m == m1 || m == m2 || m == m3
    requires viewer != a && viewer != b && a != b && a in users && b in users
    requires m1.sender == viewer && m1.recipient == a
    requires m2.sender == b && m2.recipient == viewer
    requires m3.sender == a && m3.recipient == viewer
    requires m1.timestamp < m2.timestamp < m3.timestamp
    ensures var cs := GetContactsForDMList(messages, viewer, users);
      |cs| == 2 && cs[0].id == a && cs[0].lastMessageTime == m3.timestamp
      && cs[1].id == b && cs[1].lastMessageTime == m2.timestamp
  {
    var cs := GetContactsForDMList(messages, viewer, users);
    assert Between(m3, viewer, a) && Between(m2, viewer, b) && Between(m1, viewer, a);
    assert m3 in messages && m2 in messages;
    assert forall c :: c in cs ==> c.id == a || c.id == b by {
      ContactsCarryLatestTime(messages, viewer, users);
      forall c | c in cs ensures c.id == a || c.id == b {
        var w :| w in messages && Between(w, viewer, c.id) && w.timestamp == c.lastMessageTime;
        assert w == m1 || w == m2 || w == m3;
      }
    }
    assert forall c :: c in cs ==> c.lastMessageTime == if c.id == a then m3.timestamp else m2.timestamp by {
      ContactsCarryLatestTime(messages, viewer, users);
      forall c | c in cs ensures c.lastMessageTime == if c.id == a then m3.timestamp else m2.timestamp {
        var w :| w in messages && Between(w, viewer, c.id) && w.timestamp == c.lastMessageTime;
        assert w == m1 || w == m2 || w == m3;
      }
    }
    assert (exists c :: c in cs && c.id == a) && (exists c :: c in cs && c.id == b) by {
      ContactsComplete(messages, viewer, users);
    }
    ContactsDistinct(messages, viewer, users);
    ContactsNewestFirst(messages, viewer, users);
    TwoContactsInOrder(cs, a, b, m3.timestamp, m2.timestamp);
  }

  /** A list of distinct contacts, drawn from `a` (at `ta`) and `b` (at an
      older `tb`), holding both and sorted newest first, is exactly [a, b]. */
  lemma TwoContactsInOrder(cs: seq<Contact>, a: UserId, b: UserId, ta: int, tb: int)
    requires a != b && tb < ta
    requires DistinctBy(cs, ContactId)
    requires forall i, j :: 0 <= i < j < |cs| ==> cs[i].lastMessageTime >= cs[j].lastMessageTime
    requires forall c :: c in cs ==> c.id == a || c.id == b
    requires forall c :: c in cs ==> c.lastMessageTime == if c.id == a then ta else tb
    requires (exists c :: c in cs && c.id == a) && (exists c :: c in cs && c.id == b)
    ensures |cs| == 2 && cs[0].id == a && cs[0].lastMessageTime == ta
    ensures cs[1].id == b && cs[1].lastMessageTime == tb
  {
    var ia :| 0 <= ia < |cs| && cs[ia].id == a;
    var ib :| 0 <= ib < |cs| && cs[ib].id == b;
    assert ia < ib;
    assert cs[0] in cs;
    assert ia == 0;
    assert cs[1] in cs;
    assert ib == 1;
  }

  // ---------------------------------------------------------------------------
  // uploadFile

  /** `date.replace(/:/g, "-")`. */
  function ReplaceColons(s: string): (d: string)
    ensures |d| == |s|
    ensures forall i :: 0 <= i < |s| ==> d[i] == if s[i] == ':' then '-' else s[i]
    ensures ':' !in d
  {
    if s == [] then []
    else [if s[0] == ':' then '-' else s[0]] + ReplaceColons(s[1..])
  }

  const FilesDir := "uploads/files/"

  /** The path the uploaded file is moved to: a directory named after the
      upload date with colons turned into dashes, then the original name.
      `isoDate` is `new Date().toISOString()` at the time of the request. */
  function UploadFile(file: Option<UploadedFile>, isoDate: string): (r: Outcome<string>)
    ensures r.Failed? <==> file.None?
    ensures r.Failed? ==> r == Failed(400, FileRequired)
    ensures r.Ok? ==>
      var name := TemplateText(file.value.originalname);
      var n := |FilesDir| + |isoDate|;
      && |r.value| == n + 1 + |name|
      && r.value[..|FilesDir|] == FilesDir
      && r.value[|FilesDir|..n] == ReplaceColons(isoDate)
      && ':' !in r.value[|FilesDir|..n]
      && r.value[n] == '/'
      && r.value[n + 1..] == name
  {
    match file
    case None => Failed(400, FileRequired)
    case Some(f) =>
      var date := ReplaceColons(isoDate);
      var fileDir := FilesDir + date;
      var fileName := fileDir + "/" + TemplateText(f.originalname);
      assert fileName[..|FilesDir|] == FilesDir;
      assert fileName[|FilesDir|..|fileDir|] == date;
      Ok(fileName)
  }
}
