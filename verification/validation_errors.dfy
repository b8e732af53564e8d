/** Reference meaning of folding a validation-error list (`{ property,
    constraints }` records) into a map from field name to messages. Both the
    response interceptor and the validation filter fold such a list; they
    differ only in which entries take part, which `onlyDetailed` selects. */
module ValidationErrors {
  import opened Js

  /** The key an entry is filed under: its `property`, coerced to a string. */
  function Key(e: JsVal): string {
    ToKey(Get(e, "property"))
  }

  /** The messages an entry contributes: the values of its `constraints`. */
  function Messages(e: JsVal): seq<JsVal> {
    EnumerableValues(Get(e, "constraints"))
  }

  /** The entry has a truthy `property` and truthy `constraints`. */
  predicate Detailed(e: JsVal) {
    Truthy(Get(e, "property")) && Truthy(Get(e, "constraints"))
  }

  /** The entry takes part in the fold. */
  predicate Counted(e: JsVal, onlyDetailed: bool) {
    !onlyDetailed || Detailed(e)
  }

  /** What `e` adds under key `k`. */
  function Contribution(e: JsVal, k: string, onlyDetailed: bool): seq<JsVal> {
    if Counted(e, onlyDetailed) && Key(e) == k then Messages(e) else []
  }

  /** The messages filed under `k`: those of every counted entry with that
      key, concatenated in input order. */
  function Collect(entries: seq<JsVal>, k: string, onlyDetailed: bool): seq<JsVal>
    decreases |entries|
  {
    if |entries| == 0 then []
    else Contribution(entries[0], k, onlyDetailed) + Collect(entries[1..], k, onlyDetailed)
  }

  /** The keys of the counted entries. */
  function KeySet(entries: seq<JsVal>, onlyDetailed: bool): set<string> {
    set i | 0 <= i < |entries| && Counted(entries[i], onlyDetailed) :: Key(entries[i])
  }

  /** No entry is `null` or `undefined`, so reading its fields cannot throw. */
  predicate AllReadable(entries: seq<JsVal>) {
    forall i :: 0 <= i < |entries| ==> !Nullish(entries[i])
  }

  /** Appending one entry appends its contribution. */
  lemma {:induction false} CollectSnoc(entries: seq<JsVal>, e: JsVal, k: string, onlyDetailed: bool)
    ensures Collect(entries + [e], k, onlyDetailed) == Collect(entries, k, onlyDetailed) + Contribution(e, k, onlyDetailed)
    decreases |entries|
  {
    if |entries| == 0 {
      assert entries + [e] == [e];
      assert Collect([e], k, onlyDetailed) == Contribution(e, k, onlyDetailed) + Collect([], k, onlyDetailed);
    } else {
      assert (entries + [e])[1..] == entries[1..] + [e];
      CollectSnoc(entries[1..], e, k, onlyDetailed);
    }
  }

  /** Appending one entry adds its key when it is counted. */
  lemma KeySetSnoc(entries: seq<JsVal>, e: JsVal, onlyDetailed: bool)
    ensures KeySet(entries + [e], onlyDetailed)
         == KeySet(entries, onlyDetailed) + (if Counted(e, onlyDetailed) then {Key(e)} else {})
  {
    var s := entries + [e];
    assert forall i :: 0 <= i < |entries| ==> s[i] == entries[i];
    assert s[|entries|] == e;
  }

  /** Splitting off the first entry splits off its key. */
  lemma KeySetCons(entries: seq<JsVal>, onlyDetailed: bool)
    requires |entries| > 0
    ensures KeySet(entries, onlyDetailed)
         == (if Counted(entries[0], onlyDetailed) then {Key(entries[0])} else {}) + KeySet(entries[1..], onlyDetailed)
  {
    var rest := entries[1..];
    forall x | x in KeySet(entries, onlyDetailed)
      ensures x in (if Counted(entries[0], onlyDetailed) then {Key(entries[0])} else {}) + KeySet(rest, onlyDetailed)
    {
      var i :| 0 <= i < |entries| && Counted(entries[i], onlyDetailed) && Key(entries[i]) == x;
      if i > 0 {
        assert rest[i - 1] == entries[i];
      }
    }
    forall x | x in KeySet(rest, onlyDetailed)
      ensures x in KeySet(entries, onlyDetailed)
    {
      var i :| 0 <= i < |rest| && Counted(rest[i], onlyDetailed) && Key(rest[i]) == x;
      assert entries[i + 1] == rest[i];
    }
  }

  /** A key no counted entry carries collects nothing. */
  lemma {:induction false} CollectOutsideKeySet(entries: seq<JsVal>, k: string, onlyDetailed: bool)
    requires k !in KeySet(entries, onlyDetailed)
    ensures Collect(entries, k, onlyDetailed) == []
    decreases |entries|
  {
    if |entries| > 0 {
      KeySetCons(entries, onlyDetailed);
      CollectOutsideKeySet(entries[1..], k, onlyDetailed);
    }
  }

  /** Every entry the interceptor keeps, the filter keeps too. */
  lemma DetailedKeysAreKeys(entries: seq<JsVal>)
    ensures KeySet(entries, true) <= KeySet(entries, false)
  {
  }

  /** An entry with a property but no constraints is filed by the filter's
      fold, with no messages, and skipped by the interceptor's (an empty
      property name is falsy, so it is skipped too). */
  lemma BareEntry(name: string)
    ensures var entries := [Obj([("property", Str(name))])];
      && KeySet(entries, false) == {name}
      && Collect(entries, name, false) == []
      && KeySet(entries, true) == {}
  {
    var entries := [Obj([("property", Str(name))])];
    assert Key(entries[0]) == name;
  }
}
