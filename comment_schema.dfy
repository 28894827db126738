/**
 * The comment schemas (api/core/schemas/comment.py): `parent_comment_id` normalisation on
 * creation, and the one-level flattening of `replies` when a comment is read and when it is
 * serialised.
 *
 * Python values are modelled by `Value`; an ORM row is an object with attributes.
 */
module CommentSchema {
  import opened Results

  datatype Value =
    | VNone
    | VBool(b: bool)
    | VInt(i: int)
    | VReal(r: real)
    | VStr(s: string)
    | VList(items: seq<Value>)
    | VDict(entries: map<string, Value>)
    | VObj(attrs: map<string, Value>)

  // ---------------------------------------------------------------------------------------
  // CommentCreate._normalize_parent_id
  // ---------------------------------------------------------------------------------------

  /**
   * `v in (0, "0", "", None)` under Python equality, where `False == 0` and `0.0 == 0`.
   */
  predicate NoParent(v: Value) {
    v == VNone || v == VInt(0) || v == VBool(false) || v == VReal(0.0) || v == VStr("0") || v == VStr("")
  }

  /** `_normalize_parent_id`: every "no parent" spelling becomes `None`, the rest is kept. */
  function NormalizeParentId(v: Value): (r: Value)
    ensures NoParent(v) <==> r == VNone
    ensures !NoParent(v) ==> r == v
  {
    if NoParent(v) then VNone else v
  }

  /** Normalising twice is normalising once. */
  lemma NormalizeParentIdIdempotent(v: Value)
    ensures NormalizeParentId(NormalizeParentId(v)) == NormalizeParentId(v)
  {
  }

  // ---------------------------------------------------------------------------------------
  // One level of replies
  // ---------------------------------------------------------------------------------------

  /** The attributes read from a reply that is not a dict, in the order they are read. */
  const ReplyAttributes: seq<string> := ["id", "author_id", "post_id", "parent_comment_id", "text", "created_at", "updated_at"]

  /** The dict a reply flattens to: a copy of a dict, or the attributes of an object, each with no replies. */
  function FlattenReply(r: Value): (d: Option<map<string, Value>>)
    ensures d.Some? ==> "replies" in d.value && d.value["replies"] == VList([])
    ensures r.VDict? ==> d == Some(r.entries["replies" := VList([])])
    ensures r.VObj? ==> (d.Some? <==> forall a :: a in ReplyAttributes ==> a in r.attrs)
    ensures !r.VDict? && !r.VObj? ==> d.None?
  {
    match r
    case VDict(m) => Some(m["replies" := VList([])])
    case VObj(attrs) =>
      if (forall a :: a in ReplyAttributes ==> a in attrs) then
        Some((map a | a in ReplyAttributes :: attrs[a])["replies" := VList([])])
      else None
    case _ => None
  }

  /** Flattens every reply, or fails on the first that cannot be read. */
  function FlattenAll(rs: seq<Value>): (out: Option<seq<map<string, Value>>>)
    ensures out.Some? ==> |out.value| == |rs|
  {
    if rs == [] then Some([])
    else
      var init := FlattenAll(rs[..|rs| - 1]);
      var last := FlattenReply(rs[|rs| - 1]);
      if init.Some? && last.Some? then Some(init.value + [last.value]) else None
  }

  /** `FlattenAll` succeeds iff every reply flattens, and then entry `i` is reply `i` flattened. */
  lemma {:induction false} FlattenAllEntries(rs: seq<Value>)
    ensures FlattenAll(rs).Some? <==> forall i :: 0 <= i < |rs| ==> FlattenReply(rs[i]).Some?
    ensures FlattenAll(rs).Some? ==> forall i :: 0 <= i < |rs| ==> FlattenAll(rs).value[i] == FlattenReply(rs[i]).value
  {
    if rs != [] {
      FlattenAllEntries(rs[..|rs| - 1]);
      assert forall i :: 0 <= i < |rs| - 1 ==> rs[..|rs| - 1][i] == rs[i];
    }
  }

  /** What iterating over `v` yields, when `v` can be iterated: a list's items, a text's characters, a dict's keys. */
  ghost function Iterate(v: Value): Option<seq<Value>> {
    match v
    case VList(items) => Some(items)
    case VStr(s) => Some(seq(|s|, i requires 0 <= i < |s| => VStr([s[i]])))
    case VDict(m) => if m == map[] then Some([]) else Some([VStr(PickKey(m))])
    case _ => None
  }

  /** Some key of a non-empty dict (the first the iteration meets, which fails at once). */
  ghost function PickKey(m: map<string, Value>): string
    requires m != map[]
  {
    var k :| k in m; k
  }

  /** `_coerce_replies_before`: `None` is `[]`; otherwise the flattened replies, or `v` itself when reading fails. */
  ghost function CoerceSpec(v: Value): Value {
    if v == VNone then VList([])
    else
      var items := Iterate(v);
      if items.None? then v
      else
        var flat := FlattenAll(items.value);
        if flat.None? then v else VList(AsDicts(flat.value))
  }

  /** The entries as dict values. */
  function AsDicts(ds: seq<map<string, Value>>): (vs: seq<Value>)
    ensures |vs| == |ds| && forall i :: 0 <= i < |ds| ==> vs[i] == VDict(ds[i])
  {
    if ds == [] then [] else AsDicts(ds[..|ds| - 1]) + [VDict(ds[|ds| - 1])]
  }

  /** `CommentRead._coerce_replies_before`. */
  method CoerceRepliesBefore(v: Value) returns (r: Value)
    ensures r == CoerceSpec(v)
  {
    if v == VNone {
      return VList([]);
    }
    if !(v.VList? || v.VStr? || v.VDict?) {
      return v;
    }
    if v.VDict? && v.entries != map[] {
      // iterating a dict yields its keys, and a key (a string) has no `id`
      assert FlattenAll([VStr(PickKey(v.entries))]).None? by {
        assert [VStr(PickKey(v.entries))][..0] == [];
      }
      return v;
    }
    var rs: seq<Value> := match v
      case VList(items) => items
      case VStr(s) => seq(|s|, i requires 0 <= i < |s| => VStr([s[i]]))
      case _ => [];
    assert Iterate(v) == Some(rs);
    var flat := FlattenLoop(rs);
    return if flat.Some? then VList(flat.value) else v;
  }

  /** The loop of `_coerce_replies_before`: each reply flattened in turn, stopping at one it cannot read. */
  method FlattenLoop(rs: seq<Value>) returns (r: Option<seq<Value>>)
    ensures r.Some? <==> FlattenAll(rs).Some?
    ensures r.Some? ==> r.value == AsDicts(FlattenAll(rs).value)
  {
    var flat: seq<Value> := [];
    for i := 0 to |rs|
      invariant FlattenAll(rs[..i]).Some? && flat == AsDicts(FlattenAll(rs[..i]).value)
    {
      assert rs[..i + 1][..i] == rs[..i];
      var item := FlattenReply(rs[i]);
      if item.None? {
        assert FlattenAll(rs).None? by {
          FlattenAllEntries(rs);
        }
        return None;
      }
      flat := flat + [VDict(item.value)];
    }
    assert rs[..|rs|] == rs;
    return Some(flat);
  }

  /** `CommentRead._serialize_replies`: `None` or `[]` is `[]`; `None` as a result means reading a reply raised. */
  method SerializeReplies(replies: Option<seq<Value>>) returns (r: Option<seq<map<string, Value>>>)
    ensures replies.None? || replies.value == [] ==> r == Some([])
    ensures replies.Some? && replies.value != [] ==> r == FlattenAll(replies.value)
  {
    if replies.None? || replies.value == [] {
      return Some([]);
    }
    var rs := replies.value;
    var serialized: seq<map<string, Value>> := [];
    for i := 0 to |rs|
      invariant FlattenAll(rs[..i]) == Some(serialized)
    {
      assert rs[..i + 1][..i] == rs[..i];
      var item := FlattenReply(rs[i]);
      if item.None? {
        assert FlattenAll(rs).None? by {
          FlattenAllEntries(rs);
        }
        return None;
      }
      serialized := serialized + [item.value];
    }
    assert rs[..|rs|] == rs;
    return Some(serialized);
  }

  // ---------------------------------------------------------------------------------------
  // Properties
  // ---------------------------------------------------------------------------------------

  /** Nesting is one level: a flattened entry has no replies. */
  predicate OneLevel(d: map<string, Value>) {
    "replies" in d && d["replies"] == VList([])
  }

  /**
   * When iteration of a list succeeds, there is one entry per reply, in order, with no
   * replies of its own, and a dict reply keeps every other key and value.
   */
  lemma {:induction false} CoerceListShape(items: seq<Value>)
    requires FlattenAll(items).Some?
    ensures var r := CoerceSpec(VList(items));
            && r.VList? && |r.items| == |items|
            && (forall i :: 0 <= i < |items| ==> r.items[i].VDict? && OneLevel(r.items[i].entries))
            && (forall i, k :: 0 <= i < |items| && items[i].VDict? && k in items[i].entries && k != "replies" ==>
                  k in r.items[i].entries && r.items[i].entries[k] == items[i].entries[k])
  {
    FlattenAllEntries(items);
  }

  /** A list containing a reply that cannot be read is given back unchanged. */
  lemma {:induction false} CoerceKeepsUnreadable(items: seq<Value>, i: nat)
    requires i < |items| && FlattenReply(items[i]).None?
    ensures CoerceSpec(VList(items)) == VList(items)
  {
    FlattenAllEntries(items);
  }

  /** Flattening what was already flattened changes nothing. */
  lemma {:induction false} CoerceIdempotent(items: seq<Value>)
    requires FlattenAll(items).Some?
    ensures CoerceSpec(CoerceSpec(VList(items))) == CoerceSpec(VList(items))
  {
    var once := CoerceSpec(VList(items));
    CoerceListShape(items);
    var ds := once.items;
    FlattenAllEntries(ds);
    forall i | 0 <= i < |ds|
      ensures FlattenReply(ds[i]) == Some(ds[i].entries)
    {
      assert ds[i].entries["replies" := VList([])] == ds[i].entries;
    }
    var twice := CoerceSpec(once);
    assert twice.VList? && |twice.items| == |ds|;
    forall i | 0 <= i < |ds|
      ensures twice.items[i] == ds[i]
    {
    }
  }

  /** The validator and the serializer flatten a reply alike. */
  lemma {:induction false} SerializeAgreesWithCoerce(items: seq<Value>)
    requires items != [] && FlattenAll(items).Some?
    ensures var r := CoerceSpec(VList(items));
            forall i :: 0 <= i < |items| ==> r.items[i] == VDict(FlattenAll(items).value[i])
  {
  }
}
