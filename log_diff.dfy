/** `src/components/audit/LogDiff.tsx`: which part of an audit log's
    `changes` is shown, and which of its fields. */
module LogDiff {
  import opened Wrappers
  import opened Text
  import opened JsonValues
  import opened AuditLogs

  /** `HIDDEN_FIELDS`: bookkeeping columns never shown. */
  const HiddenFields: set<string> := {
    "id", "user_id", "created_at", "updated_at", "series_id", "series_sequence",
    "series_total", "series_amount_total_cents", "meta", "changes"}

  /** `isObject`: an object that is neither `null` nor an array. */
  predicate IsObject(v: Json) { v.JObject? }

  /** How `formatValue` renders a value: a text, or `JSON.stringify` of an
      array or object, whose text is not part of this model. */
  datatype Rendered = Shown(text: string) | Serialized(value: Json)

  /** `formatValue`: a dash for `null`, a string as it is, a number or
      boolean as `String` writes it. */
  function FormatValue(v: Json): (r: Rendered)
    ensures v == JNull ==> r == Shown("—")
    ensures r == Shown("—") ==> v == JNull || v == JString("—")
    ensures v.JString? ==> r == Shown(v.s)
    ensures v.JBool? ==> r == Shown(if v.b then "true" else "false")
    ensures v.JNumber? ==> r == Shown(IntToString(v.n))
    ensures r.Serialized? <==> v.JArray? || v.JObject?
  {
    match v
    case JNull => Shown("—")
    case JString(s) => Shown(s)
    case JBool(b) => Shown(if b then "true" else "false")
    case JNumber(n) => Shown(IntToString(n))
    case _ => Serialized(v)
  }

  /** The entries of an object whose key is not hidden, in order. */
  function VisibleFields(entries: seq<(string, Json)>): (r: seq<(string, Json)>)
    ensures forall e :: e in r <==> e in entries && e.0 !in HiddenFields
    ensures |r| <= |entries|
  {
    if entries == [] then []
    else
      var rest := VisibleFields(entries[1..]);
      assert forall e :: e in entries <==> e == entries[0] || e in entries[1..];
      if entries[0].0 in HiddenFields then rest else [entries[0]] + rest
  }

  /** `Object.entries(...).filter(...)` keeps the order and every visible
      field: two lists filtered together are filtered in turn, and one entry
      is kept exactly when its key is not hidden. */
  lemma {:induction false} VisibleFieldsAppend(a: seq<(string, Json)>, b: seq<(string, Json)>)
    ensures VisibleFields(a + b) == VisibleFields(a) + VisibleFields(b)
  {
    if a == [] {
      assert a + b == b;
    } else {
      var tail := a[1..];
      var kept := if a[0].0 in HiddenFields then [] else [a[0]];
      VisibleFieldsAppend(tail, b);
      assert (a + b)[1..] == tail + b && (a + b)[0] == a[0];
      calc {
        VisibleFields(a + b);
        kept + VisibleFields(tail + b);
        kept + (VisibleFields(tail) + VisibleFields(b));
        (kept + VisibleFields(tail)) + VisibleFields(b);
        VisibleFields(a) + VisibleFields(b);
      }
    }
  }

  lemma VisibleFieldsOne(e: (string, Json))
    ensures VisibleFields([e]) == if e.0 in HiddenFields then [] else [e]
  {
    assert [e][1..] == [];
  }

  /** One changed field: its name and its value before and after. */
  datatype Change = Change(field: string, from: Json, to: Json)

  /** An entry of `changes` is a change when its key is not hidden and its
      value is an object with both `from` and `to`. */
  predicate IsChangeEntry(e: (string, Json))
  {
    e.0 !in HiddenFields && e.1.JObject? && HasKey(e.1.entries, "from") && HasKey(e.1.entries, "to")
  }

  function ChangeOf(e: (string, Json)): Change
    requires IsChangeEntry(e)
  {
    Change(e.0, Lookup(e.1.entries, "from").value, Lookup(e.1.entries, "to").value)
  }

  /** `diffEntries`: the change entries, in order. */
  function DiffEntries(entries: seq<(string, Json)>): (r: seq<Change>)
    ensures forall c :: c in r <==> exists e :: e in entries && IsChangeEntry(e) && c == ChangeOf(e)
    ensures forall c :: c in r ==> c.field !in HiddenFields
    ensures |r| <= |entries|
  {
    if entries == [] then []
    else
      var rest := DiffEntries(entries[1..]);
      assert forall e :: e in entries <==> e == entries[0] || e in entries[1..];
      if IsChangeEntry(entries[0]) then [ChangeOf(entries[0])] + rest else rest
  }

  /** The diff entries keep the order of `changes` and every change entry:
      two lists filtered together are filtered in turn, and one entry gives a
      change exactly when it is a change entry. */
  lemma {:induction false} DiffEntriesAppend(a: seq<(string, Json)>, b: seq<(string, Json)>)
    ensures DiffEntries(a + b) == DiffEntries(a) + DiffEntries(b)
  {
    if a == [] {
      assert a + b == b;
    } else {
      var head, tail := a[0], a[1..];
      var kept := if IsChangeEntry(head) then [ChangeOf(head)] else [];
      assert a == [head] + tail;
      assert a + b == [head] + (tail + b);
      calc {
        DiffEntries(a + b);
        == { DiffEntriesCons(head, tail + b); }
        kept + DiffEntries(tail + b);
        == { DiffEntriesAppend(tail, b); }
        kept + (DiffEntries(tail) + DiffEntries(b));
        (kept + DiffEntries(tail)) + DiffEntries(b);
        == { DiffEntriesCons(head, tail); }
        DiffEntries(a) + DiffEntries(b);
      }
    }
  }

  /** The diff entries of a list with one more entry at its head. */
  lemma DiffEntriesCons(e: (string, Json), rest: seq<(string, Json)>)
    ensures DiffEntries([e] + rest) == (if IsChangeEntry(e) then [ChangeOf(e)] else []) + DiffEntries(rest)
  {
    assert ([e] + rest)[1..] == rest;
  }

  lemma DiffEntriesOne(e: (string, Json))
    ensures DiffEntries([e]) == if IsChangeEntry(e) then [ChangeOf(e)] else []
  {
    assert [e][1..] == [];
  }

  /** The fields of a change list are pairwise distinct. */
  predicate DistinctFields(changes: seq<Change>)
  {
    forall i, j :: 0 <= i < j < |changes| ==> changes[i].field != changes[j].field
  }

  /** On an object with distinct keys, as every JavaScript object is, the
      visible fields list each key once. */
  lemma {:induction false} VisibleFieldsDistinct(entries: seq<(string, Json)>)
    requires DistinctKeys(entries)
    ensures DistinctKeys(VisibleFields(entries))
  {
    if entries != [] {
      var tail := entries[1..];
      assert DistinctKeys(tail) by {
        forall i, j | 0 <= i < j < |tail| ensures tail[i].0 != tail[j].0 {
          assert tail[i] == entries[i + 1] && tail[j] == entries[j + 1];
        }
      }
      VisibleFieldsDistinct(tail);
      var rest := VisibleFields(tail);
      if entries[0].0 !in HiddenFields {
        var r := [entries[0]] + rest;
        forall k | 0 <= k < |rest| ensures rest[k].0 != entries[0].0 {
          assert rest[k] in tail;
          var m :| 0 <= m < |tail| && tail[m] == rest[k];
          assert entries[m + 1] == rest[k];
        }
        forall i, j | 0 <= i < j < |r| ensures r[i].0 != r[j].0 {
          assert r[j] == rest[j - 1];
          if i > 0 { assert r[i] == rest[i - 1]; }
        }
      }
    }
  }

  /** On an object with distinct keys, the diff names each field once. */
  lemma {:induction false} DiffEntriesDistinct(entries: seq<(string, Json)>)
    requires DistinctKeys(entries)
    ensures DistinctFields(DiffEntries(entries))
  {
    if entries != [] {
      var tail := entries[1..];
      assert DistinctKeys(tail) by {
        forall i, j | 0 <= i < j < |tail| ensures tail[i].0 != tail[j].0 {
          assert tail[i] == entries[i + 1] && tail[j] == entries[j + 1];
        }
      }
      DiffEntriesDistinct(tail);
      var rest := DiffEntries(tail);
      if IsChangeEntry(entries[0]) {
        var r := [ChangeOf(entries[0])] + rest;
        forall k | 0 <= k < |rest| ensures rest[k].field != entries[0].0 {
          assert rest[k] in rest;
          var e :| e in tail && IsChangeEntry(e) && rest[k] == ChangeOf(e);
          var m :| 0 <= m < |tail| && tail[m] == e;
          assert entries[m + 1] == e;
        }
        forall i, j | 0 <= i < j < |r| ensures r[i].field != r[j].field {
          assert r[j] == rest[j - 1];
          if i > 0 { assert r[i] == rest[i - 1]; }
        }
      }
    }
  }

  /** What `LogDiff` renders. */
  datatype DiffView =
    | Nothing                                      // `null`
    | Recorded(fields: seq<(string, Json)>)        // "Dados registrados"
    | Removed(fields: seq<(string, Json)>)         // "Registro removido"
    | Changed(changes: seq<Change>)                // "Campos alterados"

  /** The object under `key` in `changes`, if there is one. */
  function ObjectUnder(entries: seq<(string, Json)>, key: string): (r: Option<seq<(string, Json)>>)
    ensures r.Some? <==> HasKey(entries, key) && Lookup(entries, key).value.JObject?
    ensures r.Some? ==> r.value == Lookup(entries, key).value.entries
  {
    var v := Lookup(entries, key);
    if v.Some? && v.value.JObject? then Some(v.value.entries) else None
  }

  /** `LogDiff`: nothing for a `changes` that is not an object; otherwise the
      object under `after`, else the object under `before`, else the change
      entries. An empty after/before view, and an update with no changes,
      render nothing; a created or deleted log with no changes still shows
      the empty "Campos alterados" box. */
  function LogDiffView(action: AuditActionType, changes: Json): (r: DiffView)
    ensures !IsObject(changes) ==> r == Nothing
    ensures IsObject(changes) && ObjectUnder(changes.entries, "after").Some? ==>
              var fields := VisibleFields(ObjectUnder(changes.entries, "after").value);
              r == (if fields == [] then Nothing else Recorded(fields))
    ensures IsObject(changes) && ObjectUnder(changes.entries, "after").None?
            && ObjectUnder(changes.entries, "before").Some? ==>
              var fields := VisibleFields(ObjectUnder(changes.entries, "before").value);
              r == (if fields == [] then Nothing else Removed(fields))
    ensures IsObject(changes) && ObjectUnder(changes.entries, "after").None?
            && ObjectUnder(changes.entries, "before").None? ==>
              var diff := DiffEntries(changes.entries);
              r == (if action == Updated && diff == [] then Nothing else Changed(diff))
  {
    if !IsObject(changes) then Nothing
    else
      var after := ObjectUnder(changes.entries, "after");
      var before := ObjectUnder(changes.entries, "before");
      if after.Some? then
        var fields := VisibleFields(after.value);
        if fields == [] then Nothing else Recorded(fields)
      else if before.Some? then
        var fields := VisibleFields(before.value);
        if fields == [] then Nothing else Removed(fields)
      else
        var diff := DiffEntries(changes.entries);
        if action == Updated && diff == [] then Nothing else Changed(diff)
  }

  /** No view ever shows a hidden field. */
  lemma HiddenFieldsNeverShown(action: AuditActionType, changes: Json)
    ensures var r := LogDiffView(action, changes);
            && (r.Recorded? ==> forall e :: e in r.fields ==> e.0 !in HiddenFields)
            && (r.Removed? ==> forall e :: e in r.fields ==> e.0 !in HiddenFields)
            && (r.Changed? ==> forall c :: c in r.changes ==> c.field !in HiddenFields)
  {
  }

  /** A view is never empty, except the change list of a created or deleted
      log. */
  lemma ShownViewsAreNonEmpty(action: AuditActionType, changes: Json)
    ensures var r := LogDiffView(action, changes);
            && (r.Recorded? ==> r.fields != [])
            && (r.Removed? ==> r.fields != [])
            && (r.Changed? && r.changes == [] ==> action != Updated)
  {
  }

  /** The `after` object decides the view whatever else `changes` holds (a
      `before` object, change entries, other keys), and an `after` object whose
      fields are all hidden shows nothing. */
  lemma AfterTakesPrecedence(action: AuditActionType, entries: seq<(string, Json)>, shown: seq<(string, Json)>)
    requires ObjectUnder(entries, "after") == Some(shown)
    ensures LogDiffView(action, JObject(entries)) == LogDiffView(action, JObject([("after", JObject(shown))]))
    ensures (forall e :: e in shown ==> e.0 in HiddenFields) ==> LogDiffView(action, JObject(entries)) == Nothing
  {
    var alone := [("after", JObject(shown))];
    assert alone[0] == ("after", JObject(shown));
    assert Lookup(alone, "after") == Some(JObject(shown));
    if forall e :: e in shown ==> e.0 in HiddenFields {
      NoVisibleFields(shown);
    }
  }

  /** An object whose keys are all hidden has no visible field. */
  lemma {:induction false} NoVisibleFields(entries: seq<(string, Json)>)
    requires forall e :: e in entries ==> e.0 in HiddenFields
    ensures VisibleFields(entries) == []
  {
    if entries != [] {
      assert entries[0] in entries;
      assert forall e :: e in entries[1..] ==> e in entries;
      NoVisibleFields(entries[1..]);
    }
  }
}
