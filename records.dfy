/** The plugin's stored entities as plain records (the ORM tables are
    sequences or maps of these), the host framework's user and permission
    model, and the filters and sums the querysets are built from. */
module Records {
  import opened Text

  /** Request lifecycle: open, then completed or cancelled; a cancelled
      request can be reopened. */
  datatype Status = Open | Completed | Cancelled

  datatype Perm = BasicAccess | AdminAccess | CorporationAccess | ManageRequests

  datatype Character = Character(characterId: int, corporationId: int)

  datatype User = User(
    id: int,
    username: string,
    isSuperuser: bool,
    perms: set<Perm>,
    mainCharacter: Option<Character>)

  /** `user.has_perm(...)`: an active superuser holds every permission. */
  predicate HasPerm(u: User, p: Perm) {
    u.isSuperuser || p in u.perms
  }

  datatype Corporation = Corporation(corporationId: int, name: string)

  /** A linked character or corporation whose assets are mirrored.
      `characterId` is the EVE id of the owning character and
      `characterRowPk` the primary key of that character's row in the host
      framework's character table (the column a foreign key to it holds). */
  datatype Owner = Owner(
    pk: int,
    characterId: int,
    characterRowPk: int,
    characterName: string,
    userId: int,
    corporation: Option<Corporation>,
    isActive: bool,
    lastUpdate: int)

  /** A resolved place; `parent` is the enclosing location, if known. */
  datatype Location = Location(
    id: int,
    name: string,
    systemId: Option<int>,
    typeId: Option<int>,
    ownerId: Option<int>,
    parent: Option<Location>,
    updatedAt: int)

  /** One stack of items of one type at one location flag of an owner. */
  datatype AssetRow = AssetRow(
    pk: int,
    itemId: int,
    typeId: int,
    typeName: string,
    owner: Owner,
    location: Location,
    locationFlag: string,
    quantity: int,
    price: Option<int>)

  datatype Request = Request(
    pk: int,
    requestingUser: int,
    requesterName: string,
    status: Status,
    closedAt: Option<int>,
    approverName: Option<string>,
    createdAt: int)

  /** One reserved item line of a request. */
  datatype RequestAsset = RequestAsset(
    requestPk: int,
    name: string,
    assetPk: int,
    locationId: int,
    locationFlag: string,
    typeId: int,
    quantity: int)

  /** The requests table, keyed by primary key. */
  type Requests = map<int, Request>

  /** `request__status=s` on a request line: the joined request exists and
      has status `s`. */
  predicate LineHasStatus(reqs: Requests, line: RequestAsset, s: Status) {
    line.requestPk in reqs && reqs[line.requestPk].status == s
  }

  /** `queryset.filter(p)`, order preserved. */
  function Filter<T>(s: seq<T>, p: T -> bool): (r: seq<T>)
    ensures |r| <= |s|
    ensures forall i :: 0 <= i < |r| ==> r[i] in s && p(r[i])
    ensures forall i :: 0 <= i < |s| && p(s[i]) ==> s[i] in r
    decreases |s|
  {
    if |s| == 0 then []
    else if p(s[|s| - 1]) then Filter(s[..|s| - 1], p) + [s[|s| - 1]]
    else Filter(s[..|s| - 1], p)
  }

  lemma {:induction false} FilterKeepsAll<T>(s: seq<T>, p: T -> bool)
    requires forall i :: 0 <= i < |s| ==> p(s[i])
    ensures Filter(s, p) == s
    decreases |s|
  {
    if |s| > 0 {
      FilterKeepsAll(s[..|s| - 1], p);
      assert s[..|s| - 1] + [s[|s| - 1]] == s;
    }
  }

  lemma {:induction false} FilterKeepsNone<T>(s: seq<T>, p: T -> bool)
    requires forall i :: 0 <= i < |s| ==> !p(s[i])
    ensures Filter(s, p) == []
    decreases |s|
  {
    if |s| > 0 {
      FilterKeepsNone(s[..|s| - 1], p);
    }
  }

  lemma {:induction false} FilterAppend<T>(s: seq<T>, x: T, p: T -> bool)
    ensures Filter(s + [x], p) == Filter(s, p) + (if p(x) then [x] else [])
  {
    assert (s + [x])[..|s|] == s;
  }

  /** Filters by predicates that agree on every element select the same
      elements. */
  lemma {:induction false} FilterSame<T>(s: seq<T>, p: T -> bool, q: T -> bool)
    requires forall i :: 0 <= i < |s| ==> p(s[i]) == q(s[i])
    ensures Filter(s, p) == Filter(s, q)
    decreases |s|
  {
    if |s| > 0 {
      FilterSame(s[..|s| - 1], p, q);
    }
  }

  /** Sum of the `quantity` column. */
  function Total(lines: seq<RequestAsset>): int
    decreases |lines|
  {
    if |lines| == 0 then 0 else Total(lines[..|lines| - 1]) + lines[|lines| - 1].quantity
  }

  lemma TotalAppend(lines: seq<RequestAsset>, line: RequestAsset)
    ensures Total(lines + [line]) == Total(lines) + line.quantity
  {
    assert (lines + [line])[..|lines|] == lines;
  }

  lemma {:induction false} TotalNonNegative(lines: seq<RequestAsset>)
    requires forall l :: l in lines ==> l.quantity >= 0
    ensures Total(lines) >= 0
    decreases |lines|
  {
    if |lines| > 0 {
      TotalNonNegative(lines[..|lines| - 1]);
    }
  }

  /** Every line of a non-empty list of positive quantities makes the sum
      positive. */
  lemma {:induction false} TotalPositive(lines: seq<RequestAsset>)
    requires |lines| > 0
    requires forall l :: l in lines ==> l.quantity >= 1
    ensures Total(lines) >= |lines|
    decreases |lines|
  {
    if |lines| > 1 {
      TotalPositive(lines[..|lines| - 1]);
    }
  }
}
