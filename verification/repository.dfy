/** A response repository: one table of cached payloads for one kind of
    resource, keyed by the composite keys of its key scheme, each row with
    the time it was cached and the time it expires. Rows are expired lazily:
    an expired row still counts towards `count()` and can be deleted, but is
    never returned. Times are whole seconds supplied by the caller. */
module Repository {
  import opened Wrappers
  import opened Http
  import opened Keys

  datatype Row = Row(payload: string, cachedAt: int, expiry: int)

  predicate Live(row: Row, now: int)
  {
    now < row.expiry
  }

  /** Which payload handler the repository uses to (de)serialise. */
  datatype PayloadHandler = StringPayload | JsonPayload

  datatype Settings = Settings(name: string, scheme: KeyScheme, payloadHandler: PayloadHandler)

  /** A repository is created unprovisioned (its table does not exist until
      the cache connects), is open while connected, and closed after. */
  datatype Lifecycle = Unprovisioned | Open | Closed

  datatype Repository = Repository(settings: Settings, expire: nat, rows: map<Key, Row>, state: Lifecycle)

  /** `OperationalError`: the table was never created. `ValueError`: the
      connection is closed. */
  datatype RepoError = NotProvisioned | ClosedConnection

  function New(settings: Settings, expire: nat): Repository
  {
    Repository(settings, expire, map[], Unprovisioned)
  }

  /** Every stored key is a complete key: nothing with a missing part is
      ever written. */
  predicate Wellformed(repo: Repository)
  {
    forall k :: k in repo.rows ==> Cacheable(k)
  }

  /** The error an operation on this repository raises, if any. */
  function Unusable(repo: Repository): (e: Option<RepoError>)
    ensures e.None? <==> repo.state == Open
  {
    match repo.state
    case Unprovisioned => Some(NotProvisioned)
    case Closed => Some(ClosedConnection)
    case Open => None
  }

  /** What a lookup names: a key, the request that produced a response, or
      a response (through its request). */
  datatype Lookup = ByKey(key: Key) | ByRequest(request: RequestInfo) | ByResponse(response: Response)

  /** The key a lookup resolves to; nothing when it is incomplete. */
  function KeyOf(repo: Repository, l: Lookup): (k: Option<Key>)
    ensures k.Some? ==> Cacheable(k.value)
  {
    match l
    case ByKey(key) => if Cacheable(key) then Some(key) else None
    case ByRequest(req) => RequestKey(repo.settings.scheme, req)
    case ByResponse(resp) => RequestKey(repo.settings.scheme, resp.request)
  }

  function LiveKeys(repo: Repository, now: int): set<Key>
  {
    set k | k in repo.rows && Live(repo.rows[k], now)
  }

  /** `count(include_expired)`. */
  function Count(repo: Repository, includeExpired: bool, now: int): (r: Result<nat, RepoError>)
    ensures r.Err? <==> repo.state != Open
    ensures r.Ok? && includeExpired ==> r.value == |repo.rows|
    ensures r.Ok? && !includeExpired ==> r.value == |LiveKeys(repo, now)| <= |repo.rows|
  {
    if Unusable(repo).Some? then Err(Unusable(repo).value)
    else if includeExpired then Ok(|repo.rows|)
    else
      assert LiveKeys(repo, now) <= repo.rows.Keys;
      LemmaSubsetCard(LiveKeys(repo, now), repo.rows.Keys);
      Ok(|LiveKeys(repo, now)|)
  }

  lemma LemmaSubsetCard<T>(a: set<T>, b: set<T>)
    requires a <= b
    ensures |a| <= |b|
  {
    assert b == a + (b - a);
  }

  /** `contains(key)`: a live row is stored under the key. */
  function Contains(repo: Repository, l: Lookup, now: int): (r: Result<bool, RepoError>)
    ensures r.Err? <==> repo.state != Open
    ensures r.Ok? ==> (r.value <==> KeyOf(repo, l).Some? && KeyOf(repo, l).value in LiveKeys(repo, now))
  {
    if Unusable(repo).Some? then Err(Unusable(repo).value)
    else
      match KeyOf(repo, l)
      case None => Ok(false)
      case Some(k) => Ok(k in repo.rows && Live(repo.rows[k], now))
  }

  /** `get_response`: the payload of the live row the lookup names. */
  function Get(repo: Repository, l: Lookup, now: int): (r: Result<Option<string>, RepoError>)
    ensures r.Err? <==> repo.state != Open
    ensures r.Ok? ==> (r.value.Some? <==> Contains(repo, l, now) == Ok(true))
    ensures r.Ok? && r.value.Some? ==> r.value.value == repo.rows[KeyOf(repo, l).value].payload
  {
    if Unusable(repo).Some? then Err(Unusable(repo).value)
    else
      match KeyOf(repo, l)
      case None => Ok(None)
      case Some(k) => if k in repo.rows && Live(repo.rows[k], now) then Ok(Some(repo.rows[k].payload)) else Ok(None)
  }

  /** `get_responses`: the payloads found, in the order of the lookups;
      lookups that find nothing are skipped. */
  function GetMany(repo: Repository, ls: seq<Lookup>, now: int): (r: Result<seq<string>, RepoError>)
    ensures r.Err? <==> repo.state != Open
    ensures r.Ok? ==> |r.value| <= |ls|
    decreases |ls|
  {
    if Unusable(repo).Some? then Err(Unusable(repo).value)
    else if |ls| == 0 then Ok([])
    else
      var first := Get(repo, ls[0], now).value;
      var rest := GetMany(repo, ls[1..], now).value;
      Ok((if first.Some? then [first.value] else []) + rest)
  }

  /** What can be saved: an explicit key with its payload, or a response
      (keyed through its request, its body as the payload). */
  datatype Item = Pair(key: Key, payload: string) | FromResponse(response: Response)

  function ItemKey(repo: Repository, item: Item): Option<Key>
  {
    match item
    case Pair(k, _) => KeyOf(repo, ByKey(k))
    case FromResponse(resp) => KeyOf(repo, ByResponse(resp))
  }

  function ItemPayload(item: Item): string
  {
    match item
    case Pair(_, p) => p
    case FromResponse(resp) => resp.body
  }

  /** `save_response`: an upsert of the row, cached now and expiring after
      the repository's time to live; an item whose key is incomplete is
      silently not saved. */
  function Save(repo: Repository, item: Item, now: int): (r: Result<Repository, RepoError>)
    ensures r.Err? <==> repo.state != Open
    ensures r.Ok? ==> r.value.settings == repo.settings && r.value.expire == repo.expire && r.value.state == repo.state
    ensures r.Ok? && ItemKey(repo, item).None? ==> r.value == repo
    ensures r.Ok? && ItemKey(repo, item).Some? ==>
      var k := ItemKey(repo, item).value;
      && k in r.value.rows
      && r.value.rows[k] == Row(ItemPayload(item), now, now + repo.expire)
      && (forall k' :: k' != k ==> (k' in r.value.rows <==> k' in repo.rows))
      && (forall k' :: k' != k && k' in repo.rows ==> r.value.rows[k'] == repo.rows[k'])
    ensures Wellformed(repo) && r.Ok? ==> Wellformed(r.value)
  {
    if Unusable(repo).Some? then Err(Unusable(repo).value)
    else
      match ItemKey(repo, item)
      case None => Ok(repo)
      case Some(k) => Ok(repo.(rows := repo.rows[k := Row(ItemPayload(item), now, now + repo.expire)]))
  }

  /** `save_responses`: every item in turn. */
  function SaveMany(repo: Repository, items: seq<Item>, now: int): (r: Result<Repository, RepoError>)
    ensures r.Err? <==> repo.state != Open
    ensures r.Ok? ==> r.value.settings == repo.settings && r.value.expire == repo.expire && r.value.state == repo.state
    ensures Wellformed(repo) && r.Ok? ==> Wellformed(r.value)
    decreases |items|
  {
    if |items| == 0 then (if Unusable(repo).Some? then Err(Unusable(repo).value) else Ok(repo))
    else match Save(repo, items[0], now)
      case Err(e) => Err(e)
      case Ok(next) => SaveMany(next, items[1..], now)
  }

  datatype Deleted = Deleted(removed: bool, repo: Repository)

  /** `delete_response`: removes the stored row the lookup names, expired
      or not, and says whether there was one. */
  function Delete(repo: Repository, l: Lookup): (r: Result<Deleted, RepoError>)
    ensures r.Err? <==> repo.state != Open
    ensures r.Ok? ==> (r.value.removed <==> KeyOf(repo, l).Some? && KeyOf(repo, l).value in repo.rows)
    ensures r.Ok? ==> r.value.repo.settings == repo.settings && r.value.repo.state == repo.state
    ensures r.Ok? && !r.value.removed ==> r.value.repo == repo
    ensures r.Ok? && r.value.removed ==> r.value.repo.rows == repo.rows - {KeyOf(repo, l).value}
  {
    if Unusable(repo).Some? then Err(Unusable(repo).value)
    else
      match KeyOf(repo, l)
      case None => Ok(Deleted(false, repo))
      case Some(k) =>
        if k in repo.rows then Ok(Deleted(true, repo.(rows := repo.rows - {k})))
        else Ok(Deleted(false, repo))
  }

  datatype DeletedMany = DeletedMany(removed: nat, repo: Repository)

  /** `delete_responses`: every lookup in turn; the number of rows removed. */
  function DeleteMany(repo: Repository, ls: seq<Lookup>): (r: Result<DeletedMany, RepoError>)
    ensures r.Err? <==> repo.state != Open
    ensures r.Ok? ==> r.value.removed <= |ls| && r.value.repo.settings == repo.settings && r.value.repo.state == repo.state
    ensures r.Ok? ==> r.value.repo.rows.Keys <= repo.rows.Keys
    ensures r.Ok? ==> |repo.rows| == |r.value.repo.rows| + r.value.removed
    decreases |ls|
  {
    if Unusable(repo).Some? then Err(Unusable(repo).value)
    else if |ls| == 0 then Ok(DeletedMany(0, repo))
    else
      var d := Delete(repo, ls[0]).value;
      var rest := DeleteMany(d.repo, ls[1..]).value;
      if d.removed then
        assert |repo.rows| == |d.repo.rows| + 1 by {
          assert d.repo.rows.Keys == repo.rows.Keys - {KeyOf(repo, ls[0]).value};
        }
        Ok(DeletedMany(rest.removed + 1, rest.repo))
      else Ok(rest)
  }

  /** `clear(expired_only)`: removes every row, or only the expired ones. */
  function Clear(repo: Repository, expiredOnly: bool, now: int): (r: Result<Repository, RepoError>)
    ensures r.Err? <==> repo.state != Open
    ensures r.Ok? ==> r.value.settings == repo.settings && r.value.state == repo.state && r.value.expire == repo.expire
    ensures r.Ok? && !expiredOnly ==> r.value.rows == map[]
    ensures r.Ok? && expiredOnly ==> r.value.rows.Keys == LiveKeys(repo, now)
    ensures r.Ok? && expiredOnly ==> forall k :: k in r.value.rows ==> k in repo.rows && r.value.rows[k] == repo.rows[k]
  {
    if Unusable(repo).Some? then Err(Unusable(repo).value)
    else if expiredOnly then Ok(repo.(rows := map k | k in repo.rows && Live(repo.rows[k], now) :: repo.rows[k]))
    else Ok(repo.(rows := map[]))
  }

  /** Creating the repository's table. */
  function Provision(repo: Repository): (r: Repository)
    ensures r.rows == repo.rows && r.settings == repo.settings
    ensures !repo.state.Closed? ==> r.state.Open?
  {
    if repo.state == Unprovisioned then repo.(state := Open) else repo
  }

  /** `close()`. */
  function Close(repo: Repository): (r: Repository)
    ensures r.state == Closed && r.rows == repo.rows
  {
    repo.(state := Closed)
  }

  // ---------------------------------------------------------------------
  // Properties
  // ---------------------------------------------------------------------

  /** Saving then reading at the same time gives the payload back, by key
      and by the saved response itself; the row is counted. */
  lemma SaveThenGet(repo: Repository, item: Item, now: int)
    requires repo.state == Open && repo.expire > 0 && ItemKey(repo, item).Some?
    ensures var saved := Save(repo, item, now).value;
      var k := ItemKey(repo, item).value;
      && Get(saved, ByKey(k), now) == Ok(Some(ItemPayload(item)))
      && Contains(saved, ByKey(k), now) == Ok(true)
      && (item.FromResponse? ==> Get(saved, ByResponse(item.response), now) == Ok(Some(ItemPayload(item))))
  {
  }

  /** An item with an incomplete key leaves the repository as it was. */
  lemma SaveIncompleteIsNoOp(repo: Repository, item: Item, now: int)
    requires repo.state == Open && ItemKey(repo, item).None?
    ensures Save(repo, item, now) == Ok(repo)
  {
  }

  /** A save adds one row for a new key and replaces the row of a stored
      one, so `count()` grows by one or stays. */
  lemma SaveCount(repo: Repository, item: Item, now: int)
    requires repo.state == Open && ItemKey(repo, item).Some?
    ensures var k := ItemKey(repo, item).value;
      Count(Save(repo, item, now).value, true, now).value == Count(repo, true, now).value + (if k in repo.rows then 0 else 1)
  {
    var k := ItemKey(repo, item).value;
    var saved := Save(repo, item, now).value;
    if k in repo.rows {
      assert saved.rows.Keys == repo.rows.Keys;
    } else {
      assert saved.rows.Keys == repo.rows.Keys + {k};
    }
  }

  /** An item's key depends on the repository only through its settings. */
  lemma ItemKeySameSettings(a: Repository, b: Repository, item: Item)
    requires a.settings == b.settings
    ensures ItemKey(a, item) == ItemKey(b, item)
  {
  }

  /** Saving a batch leaves the row of a key no item of the batch resolves
      to as it was. */
  lemma {:induction false} SaveManyFrame(repo: Repository, items: seq<Item>, now: int, k: Key)
    requires repo.state == Open
    requires forall j :: 0 <= j < |items| ==> ItemKey(repo, items[j]) != Some(k)
    ensures var saved := SaveMany(repo, items, now).value;
      && (k in saved.rows <==> k in repo.rows)
      && (k in repo.rows ==> saved.rows[k] == repo.rows[k])
    decreases |items|
  {
    if |items| > 0 {
      var next := Save(repo, items[0], now).value;
      var rest := items[1..];
      forall j | 0 <= j < |rest|
        ensures ItemKey(next, rest[j]) != Some(k)
      {
        assert rest[j] == items[j + 1];
        ItemKeySameSettings(next, repo, rest[j]);
      }
      SaveManyFrame(next, rest, now, k);
    }
  }

  /** After a batch save, an item whose key no later item of the batch
      shares reads back and is contained: the last save of a key wins. */
  lemma {:induction false} SaveManyKeepsLastOfKey(repo: Repository, items: seq<Item>, now: int, i: nat)
    requires repo.state == Open && repo.expire > 0
    requires i < |items| && ItemKey(repo, items[i]).Some?
    requires forall j :: i < j < |items| ==> ItemKey(repo, items[j]) != ItemKey(repo, items[i])
    ensures var saved := SaveMany(repo, items, now).value;
      var k := ItemKey(repo, items[i]).value;
      && Get(saved, ByKey(k), now) == Ok(Some(ItemPayload(items[i])))
      && Contains(saved, ByKey(k), now) == Ok(true)
    decreases |items|
  {
    var next := Save(repo, items[0], now).value;
    var rest := items[1..];
    var k := ItemKey(repo, items[i]).value;
    if i == 0 {
      forall j | 0 <= j < |rest|
        ensures ItemKey(next, rest[j]) != Some(k)
      {
        assert rest[j] == items[j + 1];
        ItemKeySameSettings(next, repo, rest[j]);
      }
      SaveManyFrame(next, rest, now, k);
    } else {
      assert rest[i - 1] == items[i];
      ItemKeySameSettings(next, repo, items[i]);
      forall j | i - 1 < j < |rest|
        ensures ItemKey(next, rest[j]) != ItemKey(next, rest[i - 1])
      {
        assert rest[j] == items[j + 1];
        ItemKeySameSettings(next, repo, rest[j]);
      }
      SaveManyKeepsLastOfKey(next, rest, now, i - 1);
    }
  }

  /** A batch in which no item has a complete key saves nothing. */
  lemma {:induction false} SaveManyIncompleteIsNoOp(repo: Repository, items: seq<Item>, now: int)
    requires forall j :: 0 <= j < |items| ==> ItemKey(repo, items[j]).None?
    ensures repo.state == Open ==> SaveMany(repo, items, now) == Ok(repo)
    decreases |items|
  {
    if |items| > 0 && repo.state == Open {
      var rest := items[1..];
      assert Save(repo, items[0], now) == Ok(repo);
      forall j | 0 <= j < |rest|
        ensures ItemKey(repo, rest[j]).None?
      {
        assert rest[j] == items[j + 1];
      }
      SaveManyIncompleteIsNoOp(repo, rest, now);
    }
  }

  /** Looking up a batch is looking up its parts in order. */
  lemma {:induction false} GetManyAppend(repo: Repository, a: seq<Lookup>, b: seq<Lookup>, now: int)
    requires repo.state == Open
    ensures GetMany(repo, a + b, now).value == GetMany(repo, a, now).value + GetMany(repo, b, now).value
    decreases |a|
  {
    if |a| > 0 {
      assert (a + b)[1..] == a[1..] + b;
      assert (a + b)[0] == a[0];
      GetManyAppend(repo, a[1..], b, now);
    } else {
      assert a + b == b;
    }
  }

  /** When every lookup finds its row, the batch returns every payload in
      order; a lookup that finds nothing contributes nothing. */
  lemma {:induction false} GetManyAllFound(repo: Repository, ls: seq<Lookup>, now: int)
    requires repo.state == Open
    requires forall i :: 0 <= i < |ls| ==> Get(repo, ls[i], now).value.Some?
    ensures |GetMany(repo, ls, now).value| == |ls|
    ensures forall i :: 0 <= i < |ls| ==> GetMany(repo, ls, now).value[i] == Get(repo, ls[i], now).value.value
    decreases |ls|
  {
    if |ls| > 0 {
      GetManyAllFound(repo, ls[1..], now);
    }
  }

  lemma GetManyMissing(repo: Repository, l: Lookup, now: int)
    requires repo.state == Open && Get(repo, l, now).value.None?
    ensures GetMany(repo, [l], now).value == []
  {
  }

  /** After a delete the lookup's key is gone; other rows stay. */
  lemma DeleteThenAbsent(repo: Repository, l: Lookup, now: int)
    requires repo.state == Open
    ensures var d := Delete(repo, l).value;
      && Contains(d.repo, l, now) == Ok(false)
      && (forall l' :: KeyOf(repo, l') != KeyOf(repo, l) ==> Contains(d.repo, l', now) == Contains(repo, l', now))
  {
  }

  /** Deleting a batch of distinct stored keys removes all of them and
      reports how many. */
  lemma {:induction false} DeleteManyDistinct(repo: Repository, ls: seq<Lookup>)
    requires repo.state == Open
    requires forall i :: 0 <= i < |ls| ==> KeyOf(repo, ls[i]).Some? && KeyOf(repo, ls[i]).value in repo.rows
    requires forall i, j :: 0 <= i < j < |ls| ==> KeyOf(repo, ls[i]) != KeyOf(repo, ls[j])
    ensures DeleteMany(repo, ls).value.removed == |ls|
    ensures forall i :: 0 <= i < |ls| ==> KeyOf(repo, ls[i]).value !in DeleteMany(repo, ls).value.repo.rows
    decreases |ls|
  {
    if |ls| > 0 {
      var d := Delete(repo, ls[0]).value;
      assert forall i :: 0 <= i < |ls| ==> KeyOf(d.repo, ls[i]) == KeyOf(repo, ls[i]);
      assert forall i :: 1 <= i < |ls| ==> KeyOf(repo, ls[i]).value in d.repo.rows;
      DeleteManyDistinct(d.repo, ls[1..]);
      assert forall i :: 1 <= i < |ls| ==> ls[1..][i - 1] == ls[i];
    }
  }

  /** `clear()` empties the repository; `clear(True)` keeps exactly the
      live rows, so nothing a reader could see changes. */
  lemma ClearProperties(repo: Repository, now: int, l: Lookup)
    requires repo.state == Open
    ensures Count(Clear(repo, false, now).value, true, now) == Ok(0)
    ensures Contains(Clear(repo, false, now).value, l, now) == Ok(false)
    ensures Count(Clear(repo, true, now).value, true, now) == Count(repo, false, now)
    ensures Contains(Clear(repo, true, now).value, l, now) == Contains(repo, l, now)
    ensures Get(Clear(repo, true, now).value, l, now) == Get(repo, l, now)
  {
  }

  /** A new repository is unusable until provisioned; a closed one raises
      on every access. */
  lemma LifecycleErrors(settings: Settings, expire: nat, repo: Repository, l: Lookup, now: int)
    ensures Count(New(settings, expire), true, now) == Err(NotProvisioned)
    ensures Count(Provision(New(settings, expire)), true, now) == Ok(0)
    ensures Get(Close(repo), l, now) == Err(ClosedConnection)
    ensures Contains(Close(repo), l, now) == Err(ClosedConnection)
    ensures Save(Close(repo), Pair([], ""), now) == Err(ClosedConnection)
  {
  }

  /** The documented usage: one pair saved into an empty repository is
      found, counted once with and without expired rows, and contained. */
  lemma UsageExample(repo: Repository, key: Key, payload: string, now: int)
    requires repo.state == Open && repo.rows == map[] && repo.expire > 0 && Cacheable(key)
    ensures var saved := Save(repo, Pair(key, payload), now).value;
      && Get(saved, ByKey(key), now) == Ok(Some(payload))
      && Count(saved, true, now) == Ok(1)
      && Count(saved, false, now) == Ok(1)
      && Contains(saved, ByKey(key), now) == Ok(true)
  {
    var saved := Save(repo, Pair(key, payload), now).value;
    assert saved.rows.Keys == {key};
    assert LiveKeys(saved, now) == {key};
  }
}
