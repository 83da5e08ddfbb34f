/** Updating the per-provider settings (`update_provider_settings` in
    proxy/app/api/provider_settings.py). The patches are applied in order; a patch for a
    provider type without a row creates one, any other patch overwrites the fields it
    provides; the commit then fails if two rows share a provider type, and otherwise the
    whole table is returned. The session does not flush before its queries, so the lookup
    only sees the rows that were committed before the request. */
module SettingsUpdate {
  import opened Wrappers
  import opened Domain
  import Executor

  /** One item of the request: the provider type and the fields to set. */
  datatype SettingsPatch = SettingsPatch(
    providerType: ConnectionType,
    maxInFlight: Option<int>,
    timeoutMs: Option<int>,
    retryCount: Option<int>,
    retryBackoffMs: Option<int>)

  /** The values a row created by this endpoint gets for absent or zero fields. These
      differ from the column defaults the executor uses. */
  const NewRowMaxInFlight := 1
  const NewRowTimeoutMs := 90000
  const NewRowRetryCount := 1
  const NewRowRetryBackoffMs := 500

  /** `x or fallback` on an optional integer: absent and zero fall back. */
  function OrDefault(x: Option<int>, fallback: int): (r: int)
    ensures x.Some? && x.value != 0 ==> r == x.value
    ensures x.None? || x.value == 0 ==> r == fallback
  {
    if x.Some? && x.value != 0 then x.value else fallback
  }

  /** An explicitly provided value replaces the old one, zero included. */
  function Overwrite(current: int, x: Option<int>): (r: int)
    ensures x.Some? ==> r == x.value
    ensures x.None? ==> r == current
  {
    if x.Some? then x.value else current
  }

  function NewRow(p: SettingsPatch): (s: ProviderSettings)
    ensures s.providerType == p.providerType
    ensures s.maxInFlight == OrDefault(p.maxInFlight, NewRowMaxInFlight)
    ensures s.timeoutMs == OrDefault(p.timeoutMs, NewRowTimeoutMs)
    ensures s.retryCount == OrDefault(p.retryCount, NewRowRetryCount)
    ensures s.retryBackoffMs == OrDefault(p.retryBackoffMs, NewRowRetryBackoffMs)
  {
    ProviderSettings(p.providerType, OrDefault(p.maxInFlight, NewRowMaxInFlight), OrDefault(p.timeoutMs, NewRowTimeoutMs),
                     OrDefault(p.retryCount, NewRowRetryCount), OrDefault(p.retryBackoffMs, NewRowRetryBackoffMs))
  }

  function Patched(row: ProviderSettings, p: SettingsPatch): (s: ProviderSettings)
    ensures s.providerType == row.providerType
    ensures s.maxInFlight == Overwrite(row.maxInFlight, p.maxInFlight)
    ensures s.timeoutMs == Overwrite(row.timeoutMs, p.timeoutMs)
    ensures s.retryCount == Overwrite(row.retryCount, p.retryCount)
    ensures s.retryBackoffMs == Overwrite(row.retryBackoffMs, p.retryBackoffMs)
  {
    row.(maxInFlight := Overwrite(row.maxInFlight, p.maxInFlight), timeoutMs := Overwrite(row.timeoutMs, p.timeoutMs),
         retryCount := Overwrite(row.retryCount, p.retryCount), retryBackoffMs := Overwrite(row.retryBackoffMs, p.retryBackoffMs))
  }

  /** The position of the first row of a provider type. */
  function FindRow(table: seq<ProviderSettings>, t: ConnectionType): (r: Option<nat>)
    ensures r.Some? ==> r.value < |table| && table[r.value].providerType == t
    ensures r.Some? ==> forall k :: 0 <= k < r.value ==> table[k].providerType != t
    ensures r.None? <==> forall k :: 0 <= k < |table| ==> table[k].providerType != t
  {
    if |table| == 0 then None
    else if table[0].providerType == t then Some(0)
    else
      match FindRow(table[1..], t)
      case None => None
      case Some(k) => Some(k + 1)
  }

  /** Apply one patch: update the type's row in place, or append a new row. */
  function ApplyPatch(table: seq<ProviderSettings>, p: SettingsPatch): (r: seq<ProviderSettings>)
    ensures FindRow(table, p.providerType).Some? ==>
              var i := FindRow(table, p.providerType).value;
              |r| == |table| && r[i] == Patched(table[i], p) &&
              forall k :: 0 <= k < |table| && k != i ==> r[k] == table[k]
    ensures FindRow(table, p.providerType).None? ==>
              |r| == |table| + 1 && r[..|table|] == table && r[|table|] == NewRow(p)
    ensures FindRow(r, p.providerType).Some?
  {
    match FindRow(table, p.providerType)
    case Some(i) => table[i := Patched(table[i], p)]
    case None =>
      var r := table + [NewRow(p)];
      assert r[|table|].providerType == p.providerType;
      r
  }

  /** The commit's failure when two rows share the unique provider type. */
  const UniqueViolation := "UNIQUE constraint failed: provider_settings.provider_type"

  /** One patch as the endpoint applies it: the lookup searches only the first `committed`
      rows, those that existed before the request; rows added during the request are
      invisible to it. */
  function ApplyPatchAsWritten(work: seq<ProviderSettings>, committed: nat, p: SettingsPatch): (r: seq<ProviderSettings>)
    requires committed <= |work|
    ensures |work| <= |r| <= |work| + 1
  {
    match FindRow(work[..committed], p.providerType)
    case Some(i) => work[i := Patched(work[i], p)]
    case None => work + [NewRow(p)]
  }

  function ApplyPatchesAsWritten(work: seq<ProviderSettings>, committed: nat, patches: seq<SettingsPatch>): (r: seq<ProviderSettings>)
    requires committed <= |work|
    ensures |work| <= |r| <= |work| + |patches|
    decreases |patches|
  {
    if |patches| == 0 then work
    else ApplyPatchesAsWritten(ApplyPatchAsWritten(work, committed, patches[0]), committed, patches[1..])
  }

  /** `update_provider_settings` as written: the patches, then the commit, which the unique
      provider type can refuse. */
  function UpdateSettingsAsWritten(table: seq<ProviderSettings>, patches: seq<SettingsPatch>): (r: Result<seq<ProviderSettings>>)
    ensures r.Success? ==> OneRowPerType(r.value)
    ensures r.Failure? ==> r.error == UniqueViolation
  {
    var work := ApplyPatchesAsWritten(table, |table|, patches);
    if OneRowPerType(work) then Success(work) else Failure(UniqueViolation)
  }

  /** A request that names a provider type without a row twice adds two rows for it, and
      the commit fails. */
  lemma NewTypeTwiceFails(table: seq<ProviderSettings>, p: SettingsPatch, q: SettingsPatch)
    requires FindRow(table, p.providerType).None? && q.providerType == p.providerType
    ensures UpdateSettingsAsWritten(table, [p, q]).Failure?
  {
    var n := |table|;
    assert table[..n] == table;
    var once := ApplyPatchAsWritten(table, n, p);
    assert once == table + [NewRow(p)];
    assert once[..n] == table;
    var twice := ApplyPatchAsWritten(once, n, q);
    assert twice == once + [NewRow(q)];
    assert [p, q][1..] == [q];
    assert ApplyPatchesAsWritten(once, n, [q]) == twice;
    assert twice[n].providerType == twice[n + 1].providerType;
  }

  /** When every patch names a provider type that already has a row, the lookup never
      misses a row added during the request, and the endpoint agrees with the sequential
      update. */
  lemma {:induction false} AsWrittenAgrees(table: seq<ProviderSettings>, work: seq<ProviderSettings>, patches: seq<SettingsPatch>)
    requires |work| == |table|
    requires forall k :: 0 <= k < |table| ==> work[k].providerType == table[k].providerType
    requires forall k :: 0 <= k < |patches| ==> FindRow(table, patches[k].providerType).Some?
    ensures ApplyPatchesAsWritten(work, |table|, patches) == ApplyPatches(work, patches)
    decreases |patches|
  {
    if |patches| > 0 {
      var p := patches[0];
      assert work[..|table|] == work;
      FindRowSameTypes(table, work, p.providerType);
      var next := ApplyPatch(work, p);
      assert ApplyPatchAsWritten(work, |table|, p) == next;
      assert forall k :: 0 <= k < |patches[1..]| ==> FindRow(table, patches[1..][k].providerType).Some? by {
        forall k | 0 <= k < |patches[1..]| ensures FindRow(table, patches[1..][k].providerType).Some? {
          assert patches[1..][k] == patches[k + 1];
        }
      }
      AsWrittenAgrees(table, next, patches[1..]);
    }
  }

  /** The update with a lookup that sees the rows added earlier in the same request (a
      flush before each query): a later patch of a new type finds the row an earlier one
      created, so the commit never sees two rows of one type. */
  function UpdateSettings(table: seq<ProviderSettings>, patches: seq<SettingsPatch>): (r: Result<seq<ProviderSettings>>)
    ensures OneRowPerType(table) ==> r.Success?
    ensures r.Success? ==> OneRowPerType(r.value) && r.value == ApplyPatches(table, patches)
    ensures r.Failure? ==> r.error == UniqueViolation
  {
    var work := ApplyPatches(table, patches);
    if OneRowPerType(table) then ApplyPatchesOneRowPerType(table, patches); Success(work)
    else if OneRowPerType(work) then Success(work) else Failure(UniqueViolation)
  }

  /** The patches in request order, each seeing the rows the earlier ones created. */
  function ApplyPatches(table: seq<ProviderSettings>, patches: seq<SettingsPatch>): (r: seq<ProviderSettings>)
    ensures |table| <= |r| <= |table| + |patches|
    decreases |patches|
  {
    if |patches| == 0 then table
    else ApplyPatches(ApplyPatch(table, patches[0]), patches[1..])
  }

  /** At most one row per provider type. */
  predicate OneRowPerType(table: seq<ProviderSettings>) {
    forall i, j :: 0 <= i < j < |table| ==> table[i].providerType != table[j].providerType
  }

  lemma ApplyPatchKeepsOneRowPerType(table: seq<ProviderSettings>, p: SettingsPatch)
    requires OneRowPerType(table)
    ensures OneRowPerType(ApplyPatch(table, p))
  {
  }

  /** The table keeps one row per provider type through any sequence of patches. */
  lemma {:induction false} ApplyPatchesOneRowPerType(table: seq<ProviderSettings>, patches: seq<SettingsPatch>)
    requires OneRowPerType(table)
    ensures OneRowPerType(ApplyPatches(table, patches))
    decreases |patches|
  {
    if |patches| > 0 {
      ApplyPatchKeepsOneRowPerType(table, patches[0]);
      ApplyPatchesOneRowPerType(ApplyPatch(table, patches[0]), patches[1..]);
    }
  }

  /** Every type some patch names has a row afterwards. */
  lemma {:induction false} ApplyPatchesCovers(table: seq<ProviderSettings>, patches: seq<SettingsPatch>, k: nat)
    requires k < |patches|
    ensures FindRow(ApplyPatches(table, patches), patches[k].providerType).Some?
    decreases |patches|
  {
    var next := ApplyPatch(table, patches[0]);
    if k == 0 {
      PatchedTypeStays(next, patches[1..], patches[0].providerType);
    } else {
      assert patches[1..][k - 1] == patches[k];
      ApplyPatchesCovers(next, patches[1..], k - 1);
    }
  }

  /** A type no patch names keeps its position and its row. */
  lemma {:induction false} ApplyPatchesOthers(table: seq<ProviderSettings>, patches: seq<SettingsPatch>, t: ConnectionType)
    requires forall k :: 0 <= k < |patches| ==> patches[k].providerType != t
    ensures FindRow(ApplyPatches(table, patches), t) == FindRow(table, t)
    ensures FindRow(table, t).Some? ==> ApplyPatches(table, patches)[FindRow(table, t).value] == table[FindRow(table, t).value]
    decreases |patches|
  {
    if |patches| > 0 {
      var next := ApplyPatch(table, patches[0]);
      assert patches[0].providerType != t;
      OtherTypeUntouched(table, patches[0], t);
      assert forall k :: 0 <= k < |patches[1..]| ==> patches[1..][k].providerType != t by {
        forall k | 0 <= k < |patches[1..]| ensures patches[1..][k].providerType != t {
          assert patches[1..][k] == patches[k + 1];
        }
      }
      ApplyPatchesOthers(next, patches[1..], t);
    }
  }

  /** A patch leaves the rows of other types where and as they were. */
  lemma OtherTypeUntouched(table: seq<ProviderSettings>, p: SettingsPatch, t: ConnectionType)
    requires p.providerType != t
    ensures FindRow(ApplyPatch(table, p), t) == FindRow(table, t)
    ensures FindRow(table, t).Some? ==> ApplyPatch(table, p)[FindRow(table, t).value] == table[FindRow(table, t).value]
  {
    var r := ApplyPatch(table, p);
    if FindRow(table, t).None? {
      assert forall k :: 0 <= k < |r| ==> r[k].providerType != t by {
        forall k | 0 <= k < |r| ensures r[k].providerType != t {
          if k < |table| {
            assert r[k].providerType == table[k].providerType;
          }
        }
      }
    } else {
      var i := FindRow(table, t).value;
      assert forall k :: 0 <= k < |table| ==> r[k].providerType == table[k].providerType;
      FindRowSameTypes(table, r, t);
    }
  }

  /** Tables that agree on the types of their first rows agree on where a type first
      appears among them. */
  lemma {:induction false} FindRowSameTypes(a: seq<ProviderSettings>, b: seq<ProviderSettings>, t: ConnectionType)
    requires FindRow(a, t).Some? && |a| <= |b|
    requires forall k :: 0 <= k < |a| ==> b[k].providerType == a[k].providerType
    ensures FindRow(b, t) == FindRow(a, t)
    decreases |a|
  {
    if a[0].providerType != t {
      FindRowSameTypes(a[1..], b[1..], t);
    }
  }

  /** Once a type has a row, later patches keep one. */
  lemma {:induction false} PatchedTypeStays(table: seq<ProviderSettings>, patches: seq<SettingsPatch>, t: ConnectionType)
    requires FindRow(table, t).Some?
    ensures FindRow(ApplyPatches(table, patches), t).Some?
    decreases |patches|
  {
    if |patches| > 0 {
      var next := ApplyPatch(table, patches[0]);
      if patches[0].providerType != t {
        OtherTypeUntouched(table, patches[0], t);
      }
      PatchedTypeStays(next, patches[1..], t);
    }
  }

  /** Repeating a patch changes nothing more, unless it created the row from a zero: the
      new row took the fallback and the repeat writes the zero. */
  lemma RepeatPatch(table: seq<ProviderSettings>, p: SettingsPatch)
    requires FindRow(table, p.providerType).Some? ||
             ((p.maxInFlight.None? || p.maxInFlight.value != 0) && (p.timeoutMs.None? || p.timeoutMs.value != 0) &&
              (p.retryCount.None? || p.retryCount.value != 0) && (p.retryBackoffMs.None? || p.retryBackoffMs.value != 0))
    ensures ApplyPatch(ApplyPatch(table, p), p) == ApplyPatch(table, p)
  {
    var once := ApplyPatch(table, p);
    if FindRow(table, p.providerType).None? {
      FindRowAppended(table, NewRow(p));
    } else {
      var i := FindRow(table, p.providerType).value;
      assert forall k :: 0 <= k < |table| ==> once[k].providerType == table[k].providerType;
      FindRowSameTypes(table, once, p.providerType);
    }
  }

  /** A row appended for a type the table lacks is where that type is found. */
  lemma {:induction false} FindRowAppended(table: seq<ProviderSettings>, row: ProviderSettings)
    requires FindRow(table, row.providerType).None?
    ensures FindRow(table + [row], row.providerType) == Some(|table|)
    decreases |table|
  {
    if |table| > 0 {
      assert (table + [row])[1..] == table[1..] + [row];
      FindRowAppended(table[1..], row);
    }
  }

  /** A zero for a missing type creates the row with the fallback, and the same patch
      again then stores the zero. */
  lemma ZeroPatchNotRepeatable(table: seq<ProviderSettings>, t: ConnectionType)
    requires FindRow(table, t).None?
    ensures var p := SettingsPatch(t, Some(0), None, None, None);
            ApplyPatch(table, p)[|table|].maxInFlight == NewRowMaxInFlight &&
            ApplyPatch(ApplyPatch(table, p), p)[|table|].maxInFlight == 0
  {
    var p := SettingsPatch(t, Some(0), None, None, None);
    FindRowAppended(table, NewRow(p));
  }

  /** The executor reads the first row of a type, which is the one this endpoint finds. */
  lemma {:induction false} SettingsForFound(table: seq<ProviderSettings>, t: ConnectionType)
    requires FindRow(table, t).Some?
    ensures Executor.SettingsFor(table, t) == table[FindRow(table, t).value]
    decreases |table|
  {
    if table[0].providerType != t {
      SettingsForFound(table[1..], t);
    }
  }

  /** After a patch, the settings the executor uses for that provider type are the old
      ones with the provided fields overwritten, or a new row when there was none. */
  lemma PatchReachesExecutor(table: seq<ProviderSettings>, p: SettingsPatch)
    ensures Executor.SettingsFor(ApplyPatch(table, p), p.providerType) ==
            (if FindRow(table, p.providerType).Some? then Patched(Executor.SettingsFor(table, p.providerType), p) else NewRow(p))
  {
    var r := ApplyPatch(table, p);
    if FindRow(table, p.providerType).Some? {
      SettingsForFound(table, p.providerType);
      assert forall k :: 0 <= k < |table| ==> r[k].providerType == table[k].providerType;
      FindRowSameTypes(table, r, p.providerType);
      SettingsForFound(r, p.providerType);
    } else {
      FindRowAppended(table, NewRow(p));
      SettingsForFound(r, p.providerType);
    }
  }

  /** Once the executor has run an item of a provider type, that type has a stored row, so
      a later update patches it: for a type that had no row, the untouched fields keep the
      executor's column defaults, not the values of a row this endpoint would create. */
  lemma PatchAfterFirstRun(table: seq<ProviderSettings>, p: SettingsPatch)
    ensures var stored := Executor.EnsureSettings(table, p.providerType);
            Executor.SettingsFor(ApplyPatch(stored.1, p), p.providerType) == Patched(stored.0, p)
    ensures FindRow(table, p.providerType).None? ==>
              Executor.SettingsFor(ApplyPatch(Executor.EnsureSettings(table, p.providerType).1, p), p.providerType)
              == Patched(DefaultSettings(p.providerType), p)
  {
    var stored := Executor.EnsureSettings(table, p.providerType);
    if FindRow(table, p.providerType).None? {
      assert stored.1[|table|].providerType == p.providerType;
    } else {
      var i := FindRow(table, p.providerType).value;
      assert table[i].providerType == p.providerType;
    }
    assert FindRow(stored.1, p.providerType).Some?;
    PatchReachesExecutor(stored.1, p);
  }
}
