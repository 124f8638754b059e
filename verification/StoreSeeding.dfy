/**
 The cloud store among a project's scene repositories (backend/app/api/repositories.py:46-68,
 359-436, 462-489): listing the repositories seeds the connected provider's store once, follows
 it across FrameOS versions, and replaces it when the provider changes. A marker remembers what
 was seeded. Users add, edit and delete repositories in between.
 */
module StoreSeeding {
  import opened Options
  import opened PyText

  datatype Row = Row(id: string, name: string, url: Option<string>)

  const PATH_PREFIX := "/api/store/"
  const LEGACY_SUFFIX := "/api/store/repository.json"
  const STORE_NAME := "FrameOS Cloud store"

  function RStripSlash(s: string): string {
    if s != "" && s[|s| - 1] == '/' then RStripSlash(s[..|s| - 1]) else s
  }

  /** `cloud_store_repository_url`; no version means the unversioned index. */
  function StoreUrl(provider: string, version: string): string {
    RStripSlash(provider) + PATH_PREFIX + (if version == "" then "" else version + "/") + "repository.json"
  }

  /** `_is_same_provider_store_url`. */
  predicate IsSameProviderStoreUrl(url: Option<string>, provider: string) {
    url.Some? && RStripSlash(provider) + PATH_PREFIX <= url.value
  }

  predicate EndsWith(s: string, suffix: string) {
    |s| >= |suffix| && s[|s| - |suffix|..] == suffix
  }

  /** `LIKE '%/api/store/repository.json'`, which SQLite compares without regard to case. */
  predicate IsLegacyStoreUrl(url: Option<string>) {
    url.Some? && EndsWith(Lower(url.value), LEGACY_SUFFIX)
  }

  // ---- rows -------------------------------------------------------------------------

  /** Position of the first row at a URL, or the number of rows. */
  function FirstAt(rows: seq<Row>, url: string): (i: nat)
    ensures i <= |rows|
    ensures i < |rows| ==> rows[i].url == Some(url)
    ensures forall j | 0 <= j < i :: rows[j].url != Some(url)
  {
    if rows == [] || rows[0].url == Some(url) then 0 else 1 + FirstAt(rows[1..], url)
  }

  predicate HasUrl(rows: seq<Row>, url: string) {
    FirstAt(rows, url) < |rows|
  }

  function RemoveAt(rows: seq<Row>, i: nat): seq<Row> {
    if i < |rows| then rows[..i] + rows[i + 1..] else rows
  }

  /** The rows that are not old legacy stores. */
  function WithoutLegacy(rows: seq<Row>, storeUrl: string): seq<Row> {
    if rows == [] then [] else
      WithoutLegacy(rows[..|rows| - 1], storeUrl)
      + (if IsLegacyStoreUrl(rows[|rows| - 1].url) && rows[|rows| - 1].url != Some(storeUrl) then []
         else [rows[|rows| - 1]])
  }

  predicate AnyLegacy(rows: seq<Row>) {
    exists i | 0 <= i < |rows| :: IsLegacyStoreUrl(rows[i].url)
  }

  /** A fetched index may rename its repository. */
  function Renamed(row: Row, fetched: Option<string>): Row {
    if fetched.Some? then row.(name := fetched.value) else row
  }

  // ---- listing ----------------------------------------------------------------------

  /** The marker: not there, there without a text (the old boolean), or a text. */
  datatype Marker = Unset | NoText | Text(value: string) {
    predicate IsLegacy() { NoText? || this == Text("true") }
  }

  /** What a listing is given: the connected provider, the FrameOS version, an id for a new row,
      and what the index request returned, if it returned. */
  datatype Visit = Visit(provider: string, version: string, newId: string, fetched: Option<string>) {
    function Url(): string { StoreUrl(provider, version) }
  }

  datatype State = State(rows: seq<Row>, marker: Marker) {

    /** Moves the row seeded for an older version to the new URL. */
    function Migrate(v: Visit): seq<Row>
      requires marker.Text?
    {
      var i := FirstAt(rows, marker.value);
      if i == |rows| then rows
      else if HasUrl(rows, v.Url()) then RemoveAt(rows, i)
      else rows[i := Renamed(rows[i].(url := Some(v.Url())), v.fetched)]
    }

    function Seed(v: Visit): seq<Row> {
      if HasUrl(rows, v.Url()) then rows
      else rows + [Renamed(Row(v.newId, STORE_NAME, Some(v.Url())), v.fetched)]
    }

    function Listing(v: Visit): State {
      var url := v.Url();
      if marker.Unset? then State(Seed(v), Text(url))
      else if marker.IsLegacy() then
        var kept := State(WithoutLegacy(rows, url), marker);
        var shouldSeed := AnyLegacy(rows) &&
                          forall i | 0 <= i < |rows| && IsLegacyStoreUrl(rows[i].url) :: rows[i].url != Some(url);
        State(if shouldSeed then kept.Seed(v) else kept.rows, Text(url))
      else if marker.value == url then this
      else if IsSameProviderStoreUrl(Some(marker.value), v.provider) then State(Migrate(v), Text(url))
      else State(State(RemoveAt(rows, FirstAt(rows, marker.value)), marker).Seed(v), Text(url))
    }
  }

  // ---- the code ---------------------------------------------------------------------

  class Project {
    var rows: seq<Row>
    var marker: Marker

    constructor (rows: seq<Row>)
      ensures Abstract() == State(rows, Unset)
    {
      this.rows, this.marker := rows, Unset;
    }

    ghost function Abstract(): State
      reads this
    {
      State(rows, marker)
    }

    /** The seeding part of `get_repositories`, with a connected provider. */
    method SeedStore(v: Visit)
      modifies this
      ensures Abstract() == old(Abstract()).Listing(v)
    {
      var url := StoreUrl(v.provider, v.version);
      var migrates := marker.Text? && marker.value != url && IsSameProviderStoreUrl(Some(marker.value), v.provider);
      var shouldSeed := marker.Unset? || (marker.Text? && marker.value != url && !migrates);
      if marker.IsLegacy() {
        shouldSeed := DropLegacyStores(url);
        marker := Text(url);
      } else if migrates {
        var i := FirstAt(rows, marker.value);
        if i < |rows| {
          if !HasUrl(rows, url) {
            rows := rows[i := Renamed(rows[i].(url := Some(url)), v.fetched)];
          } else {
            rows := RemoveAt(rows, i);
          }
        }
        marker := Text(url);
      } else if marker.Text? && marker.value != url {
        rows := RemoveAt(rows, FirstAt(rows, marker.value));
        marker := Text(url);
      }
      if marker.Unset? {
        marker := Text(url);
      }
      if shouldSeed && !HasUrl(rows, url) {
        rows := rows + [Renamed(Row(v.newId, STORE_NAME, Some(url)), v.fetched)];
      }
    }

    /** The loop over the legacy stores: whether there were any, none of them at `url` already. */
    method DropLegacyStores(url: string) returns (shouldSeed: bool)
      modifies this
      ensures marker == old(marker) && rows == WithoutLegacy(old(rows), url)
      ensures shouldSeed <==>
              AnyLegacy(old(rows)) &&
              forall i | 0 <= i < |old(rows)| && IsLegacyStoreUrl(old(rows)[i].url) :: old(rows)[i].url != Some(url)
    {
      var any, current := false, false;
      var kept: seq<Row> := [];
      hide IsLegacyStoreUrl;
      for i := 0 to |rows|
        invariant rows == old(rows) && marker == old(marker)
        invariant kept == WithoutLegacy(rows[..i], url)
        invariant any <==> exists j | 0 <= j < i :: IsLegacyStoreUrl(rows[j].url)
        invariant current <==> exists j | 0 <= j < i :: IsLegacyStoreUrl(rows[j].url) && rows[j].url == Some(url)
      {
        assert rows[..i + 1][..i] == rows[..i];
        if IsLegacyStoreUrl(rows[i].url) {
          any := true;
          if rows[i].url == Some(url) {
            current := true;
            kept := kept + [rows[i]];
          }
        } else {
          kept := kept + [rows[i]];
        }
      }
      assert rows[..|rows|] == rows;
      rows := kept;
      shouldSeed := any && !current;
    }

    /** `create_repository`: a URL is needed; the name is the fetched one. */
    method CreateRepository(newId: string, url: Option<string>, fetched: Option<string>) returns (created: bool)
      modifies this
      ensures created <==> url.Some? && url.value != ""
      ensures Abstract() == if created then Edit(old(Abstract()), Add(Renamed(Row(newId, "", url), fetched)))
                            else old(Abstract())
    {
      if url.None? || url.value == "" {
        return false;
      }
      rows := rows + [Renamed(Row(newId, "", url), fetched)];
      return true;
    }

    /** `update_repository`: name and URL as far as given, then the index is fetched. */
    method UpdateRepository(i: nat, name: Option<string>, url: Option<string>, fetched: Option<string>)
      modifies this
      ensures Abstract() == Edit(old(Abstract()), Update(i, name, url, fetched))
    {
      if i >= |rows| {
        return;
      }
      if name.Some? {
        rows := rows[i := rows[i].(name := name.value)];
      }
      if url.Some? {
        rows := rows[i := rows[i].(url := url)];
      }
      rows := rows[i := Renamed(rows[i], fetched)];
    }

    method DeleteRepository(i: nat)
      modifies this
      ensures Abstract() == Edit(old(Abstract()), Delete(i))
    {
      rows := RemoveAt(rows, i);
    }
  }

  // ---- what a listing brings about ---------------------------------------------------

  ghost predicate StandsAt(rows: seq<Row>, url: string) {
    exists i | 0 <= i < |rows| :: rows[i].url == Some(url)
  }

  /** The row that seeding adds: named as fetched, or by the store's own name. */
  function StoreRow(v: Visit): Row {
    Row(v.newId, if v.fetched.Some? then v.fetched.value else "FrameOS Cloud store", Some(v.Url()))
  }

  /** The listing is the first one, or follows the store of another provider. */
  predicate SeedingDue(s: State, v: Visit) {
    s.marker.Unset? ||
    (s.marker.Text? && s.marker.value != "true" && !IsSameProviderStoreUrl(Some(s.marker.value), v.provider))
  }

  /** When seeding is due the provider's store stands in the list afterwards: at the end as a new row,
      unless some row was at its URL. Besides, only the first row at the other provider's URL goes. */
  lemma DueSeedingIsDone(s: State, v: Visit)
    requires SeedingDue(s, v)
    ensures StandsAt(s.Listing(v).rows, v.Url()) && s.Listing(v).marker == Text(v.Url())
    ensures s.marker.Unset? ==>
              s.Listing(v).rows == s.rows + if StandsAt(s.rows, v.Url()) then [] else [StoreRow(v)]
    ensures s.marker.Text? ==>
              forall i | 0 <= i < |s.rows| && s.rows[i].url == Some(s.marker.value) &&
                         !StandsAt(s.rows[..i], s.marker.value) ::
                s.Listing(v).rows ==
                s.rows[..i] + s.rows[i + 1..] + if StandsAt(s.rows, v.Url()) then [] else [StoreRow(v)]
    ensures s.marker.Text? && !StandsAt(s.rows, s.marker.value) ==>
              s.Listing(v).rows == s.rows + if StandsAt(s.rows, v.Url()) then [] else [StoreRow(v)]
  {
    hide IsSameProviderStoreUrl, StoreUrl, FirstAt, Renamed;
    NewRow(v);
    NotAnywhere(s.rows, v.Url());
    LastStands(s.Listing(v).rows);
    if s.marker.Text? {
      ProviderChanged(s, v);
      var at := FirstAt(s.rows, s.marker.value);
      RemovingKeepsOthers(s.rows, at, v.Url());
      NotAnywhere(s.rows, s.marker.value);
      forall i | 0 <= i < |s.rows| && s.rows[i].url == Some(s.marker.value) && !StandsAt(s.rows[..i], s.marker.value)
        ensures i == at
      {
        assert forall j | 0 <= j < i :: s.rows[..i][j] == s.rows[j];
      }
    }
  }

  lemma ProviderChanged(s: State, v: Visit)
    requires SeedingDue(s, v) && s.marker.Text?
    ensures var at := FirstAt(s.rows, s.marker.value);
            s.marker.value != v.Url() && s.Listing(v).marker == Text(v.Url()) &&
            s.Listing(v).rows == RemoveAt(s.rows, at) + if StandsAt(s.rows, v.Url()) then [] else [StoreRow(v)]
  {
    StoreUrlIsOwn(v.provider, v.version);
    hide IsSameProviderStoreUrl, StoreUrl, FirstAt, Renamed;
    NewRow(v);
    var at := FirstAt(s.rows, s.marker.value);
    NotAnywhere(RemoveAt(s.rows, at), v.Url());
    RemovingKeepsOthers(s.rows, at, v.Url());
  }

  lemma LastStands(rows: seq<Row>)
    ensures rows != [] && rows[|rows| - 1].url.Some? ==> StandsAt(rows, rows[|rows| - 1].url.value)
  {}

  lemma RemovingKeepsOthers(rows: seq<Row>, at: nat, url: string)
    requires at < |rows| ==> rows[at].url != Some(url)
    ensures StandsAt(RemoveAt(rows, at), url) <==> StandsAt(rows, url)
  {
    var after := RemoveAt(rows, at);
    if at < |rows| {
      assert forall j | 0 <= j < at :: after[j] == rows[j];
      assert forall j | at < j < |rows| :: after[j - 1] == rows[j];
      assert forall j | at <= j < |after| :: after[j] == rows[j + 1];
    }
  }

  /** Of the old boolean marker: the old stores at other URLs go and every other row stays; a row is
      added exactly if there was an old store and no row at the store's URL. */
  lemma OldMarkerIsFollowed(s: State, v: Visit)
    requires s.marker.NoText? || s.marker == Text("true")
    ensures s.Listing(v).marker == Text(v.Url())
    ensures var seeded := !StandsAt(s.rows, v.Url()) && exists i | 0 <= i < |s.rows| :: IsLegacyStoreUrl(s.rows[i].url);
            var kept := WithoutLegacy(s.rows, v.Url());
            s.Listing(v).rows == (if seeded then kept + [StoreRow(v)] else kept) &&
            forall row :: row in kept <==> row in s.rows && !(IsLegacyStoreUrl(row.url) && row.url != Some(v.Url()))
  {
    hide IsLegacyStoreUrl, StoreUrl, Renamed;
    var kept := WithoutLegacy(s.rows, v.Url());
    NotAnywhere(kept, v.Url());
    WithoutLegacyRows(s.rows, v.Url());
    assert Renamed(Row(v.newId, STORE_NAME, Some(v.Url())), v.fetched) == StoreRow(v) by { NewRow(v); }
    assert StandsAt(kept, v.Url()) <==> StandsAt(s.rows, v.Url()) by { StandsInBoth(kept, s.rows, v.Url()); }
  }

  lemma NewRow(v: Visit)
    ensures Renamed(Row(v.newId, STORE_NAME, Some(v.Url())), v.fetched) == StoreRow(v)
  {
    hide StoreUrl;
  }

  lemma StandsInBoth(kept: seq<Row>, rows: seq<Row>, url: string)
    requires forall row: Row | row.url == Some(url) :: row in kept <==> row in rows
    ensures StandsAt(kept, url) <==> StandsAt(rows, url)
  {
    if i :| 0 <= i < |kept| && kept[i].url == Some(url) { assert kept[i] in rows; }
    if i :| 0 <= i < |rows| && rows[i].url == Some(url) { assert rows[i] in kept; }
  }

  lemma {:induction false} WithoutLegacyRows(rows: seq<Row>, url: string)
    ensures forall row :: row in WithoutLegacy(rows, url) <==>
                          row in rows && !(IsLegacyStoreUrl(row.url) && row.url != Some(url))
  {
    hide IsLegacyStoreUrl;
    if rows != [] {
      WithoutLegacyRows(rows[..|rows| - 1], url);
      assert rows == rows[..|rows| - 1] + [rows[|rows| - 1]];
    }
  }

  /** The URL of a store: the provider's without slashes at its end, the path, and the version. */
  lemma StoreUrlOf(base: string, slashes: string, version: string)
    requires base == "" || base[|base| - 1] != '/'
    requires forall i | 0 <= i < |slashes| :: slashes[i] == '/'
    ensures StoreUrl(base + slashes, version) ==
            base + "/api/store/" + (if version == "" then "repository.json" else version + "/repository.json")
  {
    SlashesStripped(base, slashes);
    hide RStripSlash;
    assert "/" + "repository.json" == "/repository.json";
    Regrouped(base + "/api/store/", if version == "" then "" else version, "/", "repository.json");
  }

  lemma Regrouped(a: string, b: string, c: string, d: string)
    ensures a + (b + c) + d == a + (b + (c + d)) && a + "" + d == a + d
  {}

  lemma {:induction false} SlashesStripped(base: string, slashes: string)
    requires base == "" || base[|base| - 1] != '/'
    requires forall i | 0 <= i < |slashes| :: slashes[i] == '/'
    ensures RStripSlash(base + slashes) == base
  {
    if slashes == "" {
      assert base + slashes == base;
    } else {
      var fewer := slashes[..|slashes| - 1];
      assert (base + slashes)[..|base + slashes| - 1] == base + fewer;
      SlashesStripped(base, fewer);
    }
  }

  // ---- user edits -------------------------------------------------------------------

  /** A row is named by its position here; a position without a row is a 404. */
  datatype UserEdit =
    | Add(row: Row)
    | Update(i: nat, name: Option<string>, url: Option<string>, fetched: Option<string>)
    | Delete(i: nat)

  function Edited(row: Row, e: UserEdit): Row
    requires e.Update?
  {
    Renamed(Row(row.id, if e.name.Some? then e.name.value else row.name, if e.url.Some? then e.url else row.url),
            e.fetched)
  }

  function Edit(s: State, e: UserEdit): State {
    match e
    case Add(row) => State(s.rows + [row], s.marker)
    case Update(i, _, _, _) => if i < |s.rows| then State(s.rows[i := Edited(s.rows[i], e)], s.marker) else s
    case Delete(i) => State(RemoveAt(s.rows, i), s.marker)
  }

  /** A user's edit touches one row: it keeps its id, takes what is given, and is named as fetched. */
  lemma EditsOneRow(s: State, e: UserEdit)
    ensures Edit(s, e).marker == s.marker
    ensures e.Add? ==> Edit(s, e).rows == s.rows + [e.row]
    ensures e.Delete? ==> Edit(s, e).rows == if e.i < |s.rows| then s.rows[..e.i] + s.rows[e.i + 1..] else s.rows
    ensures e.Update? && e.i >= |s.rows| ==> Edit(s, e) == s
    ensures e.Update? && e.i < |s.rows| ==>
              var row, edited := s.rows[e.i], Edit(s, e).rows[e.i];
              |Edit(s, e).rows| == |s.rows| &&
              (forall j | 0 <= j < |s.rows| && j != e.i :: Edit(s, e).rows[j] == s.rows[j]) &&
              edited.id == row.id && edited.url == (if e.url.Some? then e.url else row.url) &&
              edited.name ==
                if e.fetched.Some? then e.fetched.value else if e.name.Some? then e.name.value else row.name
  {}

  // ---- one listing ------------------------------------------------------------------

  lemma {:induction false} NotAnywhere(rows: seq<Row>, url: string)
    ensures HasUrl(rows, url) <==> exists i | 0 <= i < |rows| :: rows[i].url == Some(url)
  {}

  lemma StoreUrlIsOwn(provider: string, version: string)
    ensures IsSameProviderStoreUrl(Some(StoreUrl(provider, version)), provider)
    ensures StoreUrl(provider, version) != "true"
  {
    var url := StoreUrl(provider, version);
    var base := RStripSlash(provider) + PATH_PREFIX;
    assert base <= url;
    assert |url| >= |base| >= |PATH_PREFIX| > |"true"|;
  }

  /** Listing again with nothing changed in between changes nothing. */
  lemma ListingTwiceIsOnce(s: State, v: Visit, again: Visit)
    requires again.provider == v.provider && again.version == v.version
    ensures s.Listing(v).Listing(again) == s.Listing(v)
  {
    StoreUrlIsOwn(v.provider, v.version);
  }

  /** How many rows are at a URL. */
  function CountAt(rows: seq<Row>, url: string): nat {
    if rows == [] then 0 else
      CountAt(rows[..|rows| - 1], url) + (if rows[|rows| - 1].url == Some(url) then 1 else 0)
  }

  lemma {:induction false} CountConcat(a: seq<Row>, b: seq<Row>, url: string)
    ensures CountAt(a + b, url) == CountAt(a, url) + CountAt(b, url)
  {
    if b == [] {
      assert a + b == a;
    } else {
      CountConcat(a, b[..|b| - 1], url);
      assert (a + b)[..|a + b| - 1] == a + b[..|b| - 1];
    }
  }

  lemma {:induction false} CountZero(rows: seq<Row>, url: string)
    ensures CountAt(rows, url) == 0 <==> !HasUrl(rows, url)
  {
    NotAnywhere(rows, url);
    if rows != [] {
      CountZero(rows[..|rows| - 1], url);
      NotAnywhere(rows[..|rows| - 1], url);
    }
  }

  lemma {:induction false} WithoutLegacyCount(rows: seq<Row>, url: string)
    ensures CountAt(WithoutLegacy(rows, url), url) == CountAt(rows, url)
  {
    hide IsLegacyStoreUrl;
    if rows != [] {
      var front, last := rows[..|rows| - 1], rows[|rows| - 1];
      WithoutLegacyCount(front, url);
      if IsLegacyStoreUrl(last.url) && last.url != Some(url) {
        assert WithoutLegacy(rows, url) == WithoutLegacy(front, url);
      } else {
        CountConcat(WithoutLegacy(front, url), [last], url);
        CountOne(last, url);
      }
    }
  }

  lemma RemoveCount(rows: seq<Row>, i: nat, url: string)
    ensures CountAt(RemoveAt(rows, i), url) <= CountAt(rows, url)
  {
    if i < |rows| {
      var row := [rows[i]];
      assert rows == rows[..i] + (row + rows[i + 1..]);
      CountConcat(rows[..i], row + rows[i + 1..], url);
      CountConcat(row, rows[i + 1..], url);
      CountConcat(rows[..i], rows[i + 1..], url);
    }
  }

  lemma CountOne(row: Row, url: string)
    ensures CountAt([row], url) == if row.url == Some(url) then 1 else 0
  {
    assert [row][..0] == [];
  }

  lemma ReplaceCount(rows: seq<Row>, i: nat, row: Row, url: string)
    requires i < |rows| && !HasUrl(rows, url)
    ensures CountAt(rows[i := row], url) <= 1
  {
    CountZero(rows, url);
    CountOne(row, url);
    hide *;
    var front, rest := rows[..i], rows[i + 1..];
    assert rows == front + ([rows[i]] + rest) && rows[i := row] == front + ([row] + rest);
    CountConcat(front, [rows[i]] + rest, url);
    CountConcat([rows[i]], rest, url);
    CountConcat(front, [row] + rest, url);
    CountConcat([row], rest, url);
  }

  lemma SeedCount(s: State, v: Visit, before: nat)
    requires CountAt(s.rows, v.Url()) <= before
    ensures CountAt(s.Seed(v), v.Url()) <= if before < 1 then 1 else before
  {
    CountZero(s.rows, v.Url());
    if !HasUrl(s.rows, v.Url()) {
      var row := Renamed(Row(v.newId, STORE_NAME, Some(v.Url())), v.fetched);
      CountConcat(s.rows, [row], v.Url());
      assert [row][..0] == [];
    }
  }

  /** A listing never makes a second row at the store's URL. */
  lemma StoreCountBounded(s: State, v: Visit)
    ensures CountAt(s.Listing(v).rows, v.Url()) <= if CountAt(s.rows, v.Url()) < 1 then 1 else CountAt(s.rows, v.Url())
  {
    hide CountAt, Renamed, IsSameProviderStoreUrl, WithoutLegacy, Visit.Url;
    var url, before := v.Url(), CountAt(s.rows, v.Url());
    if s.marker.Unset? {
      SeedCount(s, v, before);
    } else if s.marker.IsLegacy() {
      WithoutLegacyCount(s.rows, url);
      SeedCount(State(WithoutLegacy(s.rows, url), s.marker), v, before);
    } else {
      var i := FirstAt(s.rows, s.marker.value);
      RemoveCount(s.rows, i, url);
      SeedCount(State(RemoveAt(s.rows, i), s.marker), v, before);
      if i < |s.rows| && !HasUrl(s.rows, url) {
        ReplaceCount(s.rows, i, Renamed(s.rows[i].(url := Some(url)), v.fetched), url);
      }
    }
  }

  /** The rows a listing may touch: at the store's URL, at the marker's, and old legacy stores
      while the marker is the old boolean. */
  predicate Related(row: Row, s: State, v: Visit) {
    row.url == Some(v.Url()) || (s.marker.Text? && row.url == Some(s.marker.value)) ||
    (s.marker.IsLegacy() && IsLegacyStoreUrl(row.url))
  }

  function Unrelated(rows: seq<Row>, s: State, v: Visit): seq<Row> {
    if rows == [] then [] else
      (if Related(rows[0], s, v) then [] else [rows[0]]) + Unrelated(rows[1..], s, v)
  }

  lemma {:induction false} UnrelatedConcat(a: seq<Row>, b: seq<Row>, s: State, v: Visit)
    ensures Unrelated(a + b, s, v) == Unrelated(a, s, v) + Unrelated(b, s, v)
  {
    hide Related;
    if a == [] {
      assert a + b == b;
    } else {
      UnrelatedConcat(a[1..], b, s, v);
      assert (a + b)[1..] == a[1..] + b && (a + b)[0] == a[0];
    }
  }

  lemma UnrelatedSplice(rows: seq<Row>, i: nat, replacement: seq<Row>, s: State, v: Visit)
    requires i < |rows| && Related(rows[i], s, v) && Unrelated(replacement, s, v) == []
    ensures Unrelated(rows[..i] + replacement + rows[i + 1..], s, v) == Unrelated(rows, s, v)
  {
    hide Related;
    var rest := rows[i + 1..];
    assert rows == rows[..i] + ([rows[i]] + rest);
    UnrelatedConcat(rows[..i], [rows[i]] + rest, s, v);
    UnrelatedConcat([rows[i]], rest, s, v);
    UnrelatedConcat(rows[..i] + replacement, rest, s, v);
    UnrelatedConcat(rows[..i], replacement, s, v);
  }

  lemma {:induction false} UnrelatedWithoutLegacy(rows: seq<Row>, s: State, v: Visit)
    requires s.marker.IsLegacy()
    ensures Unrelated(WithoutLegacy(rows, v.Url()), s, v) == Unrelated(rows, s, v)
  {
    if rows != [] {
      var front, last := rows[..|rows| - 1], [rows[|rows| - 1]];
      UnrelatedWithoutLegacy(front, s, v);
      assert rows == front + last;
      UnrelatedConcat(front, last, s, v);
      UnrelatedConcat(WithoutLegacy(front, v.Url()), last, s, v);
      UnrelatedConcat(WithoutLegacy(front, v.Url()), [], s, v);
    }
  }

  lemma UnrelatedSeed(rows: seq<Row>, s: State, v: Visit)
    ensures Unrelated(State(rows, s.marker).Seed(v), s, v) == Unrelated(rows, s, v)
  {
    var row := Renamed(Row(v.newId, STORE_NAME, Some(v.Url())), v.fetched);
    UnrelatedConcat(rows, [row], s, v);
  }

  /** Rows at unrelated URLs keep their content and their order. */
  lemma UnrelatedUntouched(s: State, v: Visit)
    ensures Unrelated(s.Listing(v).rows, s, v) == Unrelated(s.rows, s, v)
  {
    hide Related, Visit.Url, IsSameProviderStoreUrl, Unrelated, WithoutLegacy, State.Seed, State.Migrate;
    hide RemoveAt, FirstAt;
    UnrelatedSeed(s.rows, s, v);
    if s.marker.IsLegacy() {
      UnrelatedWithoutLegacy(s.rows, s, v);
      UnrelatedSeed(WithoutLegacy(s.rows, v.Url()), s, v);
    } else if s.marker.Text? {
      UnrelatedRemoved(s, v);
      UnrelatedMigrated(s, v);
      UnrelatedSeed(RemoveAt(s.rows, FirstAt(s.rows, s.marker.value)), s, v);
    }
  }

  lemma UnrelatedRemoved(s: State, v: Visit)
    requires s.marker.Text?
    ensures Unrelated(RemoveAt(s.rows, FirstAt(s.rows, s.marker.value)), s, v) == Unrelated(s.rows, s, v)
  {
    hide Related;
    var i := FirstAt(s.rows, s.marker.value);
    if i < |s.rows| {
      MarkerRowIsRelated(s, v, s.rows[i]);
      UnrelatedSplice(s.rows, i, [], s, v);
      assert s.rows[..i] + [] + s.rows[i + 1..] == RemoveAt(s.rows, i);
    }
  }

  lemma UnrelatedMigrated(s: State, v: Visit)
    requires s.marker.Text?
    ensures Unrelated(s.Migrate(v), s, v) == Unrelated(s.rows, s, v)
  {
    hide Related, Unrelated;
    UnrelatedRemoved(s, v);
    var i := FirstAt(s.rows, s.marker.value);
    if i < |s.rows| {
      var moved := Renamed(s.rows[i].(url := Some(v.Url())), v.fetched);
      MarkerRowIsRelated(s, v, s.rows[i]);
      StoreRowIsRelated(s, v, moved);
      UnrelatedSplice(s.rows, i, [moved], s, v);
      assert s.rows[..i] + [moved] + s.rows[i + 1..] == s.rows[i := moved];
    }
  }

  lemma MarkerRowIsRelated(s: State, v: Visit, row: Row)
    requires s.marker.Text? && row.url == Some(s.marker.value)
    ensures Related(row, s, v)
  {}

  lemma StoreRowIsRelated(s: State, v: Visit, row: Row)
    requires row.url == Some(v.Url())
    ensures Related(row, s, v) && Unrelated([row], s, v) == []
  {}

  /** A version upgrade moves the seeded row and keeps its id and place, unless the user already
      has a row at the new URL; then the seeded row goes and the user's stays. */
  lemma UpgradeKeepsTheRow(s: State, v: Visit, oldVersion: string)
    requires s.marker == Text(StoreUrl(v.provider, oldVersion)) && StoreUrl(v.provider, oldVersion) != v.Url()
    ensures var i, after := FirstAt(s.rows, s.marker.value), s.Listing(v).rows;
            (i < |s.rows| && !HasUrl(s.rows, v.Url()) ==>
               |after| == |s.rows| && after[i].id == s.rows[i].id && after[i].url == Some(v.Url()) &&
               forall j | 0 <= j < |after| && j != i :: after[j] == s.rows[j]) &&
            (i < |s.rows| && HasUrl(s.rows, v.Url()) ==> after == s.rows[..i] + s.rows[i + 1..]) &&
            (i == |s.rows| ==> after == s.rows)
  {
    StoreUrlIsOwn(v.provider, oldVersion);
  }

  // ---- runs -------------------------------------------------------------------------

  datatype Event = List(visit: Visit) | User(edit: UserEdit)

  function Next(s: State, e: Event): State {
    match e
    case List(visit) => s.Listing(visit)
    case User(edit) => Edit(s, edit)
  }

  function Run(s: State, events: seq<Event>): State {
    if events == [] then s else Next(Run(s, events[..|events| - 1]), events[|events| - 1])
  }

  /** The project was listed with this provider connected, and with no other since. */
  predicate SeededFor(s: State, provider: string) {
    s.marker.Text? && IsSameProviderStoreUrl(Some(s.marker.value), provider) && s.marker.value != "true"
  }

  ghost predicate OnlyProvider(events: seq<Event>, provider: string) {
    forall i | 0 <= i < |events| && events[i].List? :: events[i].visit.provider == provider
  }

  /** The ids of the rows at some version of the provider's store. */
  ghost function StoreIds(rows: seq<Row>, provider: string): set<string> {
    set row | row in rows && IsSameProviderStoreUrl(row.url, provider) :: row.id
  }

  ghost function Ids(rows: seq<Row>): set<string> {
    set row | row in rows :: row.id
  }

  /** Every row was there before, with its id, and is a store's only if it was one. */
  ghost predicate ComeFrom(after: seq<Row>, before: seq<Row>, provider: string) {
    forall row | row in after :: exists origin | origin in before ::
      row.id == origin.id &&
      (IsSameProviderStoreUrl(row.url, provider) ==> IsSameProviderStoreUrl(origin.url, provider))
  }

  lemma IdsComeAlong(after: seq<Row>, before: seq<Row>, provider: string)
    requires ComeFrom(after, before, provider)
    ensures Ids(after) <= Ids(before) && StoreIds(after, provider) <= StoreIds(before, provider)
  {}

  lemma RemovedComeFrom(rows: seq<Row>, i: nat, provider: string)
    ensures ComeFrom(RemoveAt(rows, i), rows, provider) && ComeFrom(rows, rows, provider)
  {
    hide IsSameProviderStoreUrl;
    assert forall row | row in RemoveAt(rows, i) :: row in rows;
  }

  lemma UpdatedComeFrom(rows: seq<Row>, i: nat, row: Row, provider: string)
    requires i < |rows| && row.id == rows[i].id
    requires IsSameProviderStoreUrl(row.url, provider) ==> IsSameProviderStoreUrl(rows[i].url, provider)
    ensures ComeFrom(rows[i := row], rows, provider)
  {
    hide IsSameProviderStoreUrl;
    forall r | r in rows[i := row]
      ensures exists origin | origin in rows ::
                r.id == origin.id &&
                (IsSameProviderStoreUrl(r.url, provider) ==> IsSameProviderStoreUrl(origin.url, provider))
    {
      if r == row {
        assert rows[i] in rows;
      }
    }
  }

  /** One listing for the provider the marker is of: no row is added, none becomes a store's. */
  lemma ListingAddsNothing(s: State, v: Visit)
    requires SeededFor(s, v.provider)
    ensures SeededFor(s.Listing(v), v.provider) && |s.Listing(v).rows| <= |s.rows|
    ensures Ids(s.Listing(v).rows) <= Ids(s.rows)
    ensures StoreIds(s.Listing(v).rows, v.provider) <= StoreIds(s.rows, v.provider)
  {
    hide ComeFrom, Ids, StoreIds, State.Migrate, IsSameProviderStoreUrl, Visit.Url;
    StoreUrlIsOwn(v.provider, v.version);
    RemovedComeFrom(s.rows, 0, v.provider);
    MigratedComeFrom(s, v);
    assert v.Url() == StoreUrl(v.provider, v.version) by { UrlOf(v); }
    assert s.Listing(v).rows == s.rows || s.Listing(v).rows == s.Migrate(v);
    IdsComeAlong(s.Listing(v).rows, s.rows, v.provider);
  }

  lemma UrlOf(v: Visit)
    ensures v.Url() == StoreUrl(v.provider, v.version)
  {}

  lemma MigratedComeFrom(s: State, v: Visit)
    requires SeededFor(s, v.provider)
    ensures ComeFrom(s.Migrate(v), s.rows, v.provider) && |s.Migrate(v)| <= |s.rows|
  {
    hide ComeFrom, IsSameProviderStoreUrl, Visit.Url, HasUrl;
    var i := FirstAt(s.rows, s.marker.value);
    RemovedComeFrom(s.rows, i, v.provider);
    if i < |s.rows| {
      UpdatedComeFrom(s.rows, i, Renamed(s.rows[i].(url := Some(v.Url())), v.fetched), v.provider);
    }
  }

  /** After the first connected listing, no listing for that provider adds a row or an id, whatever
      versions follow and whatever users do in between. */
  lemma {:induction false} NoListingAddsARow(s: State, events: seq<Event>, provider: string)
    requires SeededFor(s, provider) && OnlyProvider(events, provider)
    ensures SeededFor(Run(s, events), provider)
    ensures |events| > 0 && events[|events| - 1].List? ==>
              var before, after := Run(s, events[..|events| - 1]).rows, Run(s, events).rows;
              |after| <= |before| && Ids(after) <= Ids(before) &&
              StoreIds(after, provider) <= StoreIds(before, provider)
  {
    hide Ids, StoreIds, IsSameProviderStoreUrl, State.Listing;
    if events != [] {
      NoListingAddsARow(s, events[..|events| - 1], provider);
      match events[|events| - 1] {
        case List(visit) => ListingAddsNothing(Run(s, events[..|events| - 1]), visit);
        case User(_) =>
      }
    }
  }

  lemma FirstListingSeeds(s: State, v: Visit)
    ensures SeededFor(s.Listing(v), v.provider)
  {
    StoreUrlIsOwn(v.provider, v.version);
  }

  /** The edit does not type a URL of the provider's store by hand. */
  predicate Avoids(e: UserEdit, provider: string) {
    match e
    case Add(row) => !IsSameProviderStoreUrl(row.url, provider)
    case Update(_, _, url, _) => url.Some? ==> !IsSameProviderStoreUrl(url, provider)
    case Delete(_) => true
  }

  ghost predicate EditsAvoid(events: seq<Event>, provider: string) {
    forall i | 0 <= i < |events| && events[i].User? :: Avoids(events[i].edit, provider)
  }

  lemma EditMakesNoStore(s: State, e: UserEdit, provider: string)
    requires Avoids(e, provider)
    ensures StoreIds(Edit(s, e).rows, provider) <= StoreIds(s.rows, provider)
  {
    hide IsSameProviderStoreUrl, ComeFrom;
    match e {
      case Add(row) =>
      case Update(i, _, _, _) =>
        if i < |s.rows| {
          UpdatedComeFrom(s.rows, i, Edited(s.rows[i], e), provider);
          IdsComeAlong(Edit(s, e).rows, s.rows, provider);
        }
      case Delete(i) =>
        RemovedComeFrom(s.rows, i, provider);
        IdsComeAlong(Edit(s, e).rows, s.rows, provider);
    }
  }

  /** A deleted store stays deleted, through version upgrades too, until the provider changes: the
      rows at its URLs are always among those that were there, whichever were kept by hand. */
  lemma {:induction false} DeletedStoreStaysDeleted(s: State, events: seq<Event>, provider: string)
    requires SeededFor(s, provider) && OnlyProvider(events, provider) && EditsAvoid(events, provider)
    ensures StoreIds(Run(s, events).rows, provider) <= StoreIds(s.rows, provider)
  {
    hide StoreIds, Edit, Avoids, IsSameProviderStoreUrl, State.Listing;
    if events != [] {
      var before := Run(s, events[..|events| - 1]);
      DeletedStoreStaysDeleted(s, events[..|events| - 1], provider);
      NoListingAddsARow(s, events[..|events| - 1], provider);
      match events[|events| - 1] {
        case List(v) => ListingAddsNothing(before, v);
        case User(e) => EditMakesNoStore(before, e, provider);
      }
    }
  }
}
