/**
 `clean_mongo_document` (utils.py): the rewrite applied to a MongoDB document
 before it is serialised. ObjectIds become their string form and NaN or
 infinite floats become None; the rewrite enters nested dicts and the dict
 elements of lists, and leaves every other value alone.
 */
module Clean {

  /** A Python float, abstracted to what the rewrite inspects: finite or not. */
  datatype Float = Finite(x: real) | NaN | Infinity(negative: bool)

  /** A JSON-like value as found in a BSON document. */
  datatype Value =
    | Null
    | Bool(b: bool)
    | Int(i: int)
    | Num(f: Float)
    | Str(s: string)
    | ObjectId(hex: string)
    | List(items: seq<Value>)
    | Dict(fields: seq<Field>)

  /** One dict entry; a dict is its entries in insertion order. */
  datatype Field = Field(key: string, val: Value)

  /** The rewrite of one dict value (the body of the loop over `doc.items()`). */
  function CleanValue(v: Value): Value
    decreases v, 1
  {
    match v
    case ObjectId(hex) => Str(hex)
    case Num(f) => if f.Finite? then v else Null
    case List(items) =>
      List(seq(|items|, i requires 0 <= i < |items| =>
        if items[i].Dict? then CleanValue(items[i]) else items[i]))
    case Dict(fs) => Dict(CleanDoc(fs))
    case _ => v
  }

  /** `clean_mongo_document(doc)` for the dict with entries `fs`. */
  function CleanDoc(fs: seq<Field>): (r: seq<Field>)
    decreases Dict(fs), 0
    ensures |r| == |fs|
    ensures forall i :: 0 <= i < |fs| ==> r[i].key == fs[i].key
  {
    seq(|fs|, i requires 0 <= i < |fs| => Field(fs[i].key, CleanValue(fs[i].val)))
  }

  /** No dict reachable through dicts and the dict elements of lists holds an ObjectId or a non-finite float. */
  predicate IsCleanValue(v: Value)
    decreases v, 1
  {
    match v
    case ObjectId(_) => false
    case Num(f) => f.Finite?
    case List(items) => forall i :: 0 <= i < |items| ==> items[i].Dict? ==> IsCleanValue(items[i])
    case Dict(fs) => IsCleanDoc(fs)
    case _ => true
  }

  predicate IsCleanDoc(fs: seq<Field>)
    decreases Dict(fs), 0
  {
    forall i :: 0 <= i < |fs| ==> IsCleanValue(fs[i].val)
  }

  /** Every dict value is rewritten by the rule for its type, and lists keep their length and order. */
  lemma CleanDocRules(fs: seq<Field>, i: nat)
    requires i < |fs|
    ensures var v := fs[i].val;
            var w := CleanDoc(fs)[i].val;
            && (v.ObjectId? ==> w == Str(v.hex))
            && (v.Num? && !v.f.Finite? ==> w == Null)
            && (v.Num? && v.f.Finite? ==> w == v)
            && (v.Null? || v.Bool? || v.Int? || v.Str? ==> w == v)
            && (v.Dict? ==> w == Dict(CleanDoc(v.fields)))
            && (v.List? ==>
                  && w.List? && |w.items| == |v.items|
                  && forall j :: 0 <= j < |v.items| ==>
                       w.items[j] == (if v.items[j].Dict? then Dict(CleanDoc(v.items[j].fields)) else v.items[j]))
  {
    var v := fs[i].val;
    if v.List? {
      forall j | 0 <= j < |v.items| && v.items[j].Dict?
        ensures CleanValue(v.items[j]) == Dict(CleanDoc(v.items[j].fields))
      {
      }
    }
  }

  /** After cleaning, no reachable dict holds an ObjectId or a non-finite float. */
  lemma {:induction false} CleanValueIsClean(v: Value)
    decreases v, 1
    ensures IsCleanValue(CleanValue(v))
  {
    match v
    case List(items) =>
      var w := CleanValue(v);
      forall i | 0 <= i < |items| && w.items[i].Dict?
        ensures IsCleanValue(w.items[i])
      {
        CleanValueIsClean(items[i]);
      }
    case Dict(fs) =>
      CleanDocIsClean(fs);
    case _ =>
  }

  lemma {:induction false} CleanDocIsClean(fs: seq<Field>)
    decreases Dict(fs), 0
    ensures IsCleanDoc(CleanDoc(fs))
  {
    forall i | 0 <= i < |fs|
      ensures IsCleanValue(CleanDoc(fs)[i].val)
    {
      CleanValueIsClean(fs[i].val);
    }
  }

  /** Cleaning leaves a value unchanged exactly when it is already clean. */
  lemma {:induction false} CleanValueFixpoint(v: Value)
    decreases v, 1
    ensures CleanValue(v) == v <==> IsCleanValue(v)
  {
    match v
    case List(items) =>
      var w := CleanValue(v);
      forall i | 0 <= i < |items| && items[i].Dict?
        ensures w.items[i] == items[i] <==> IsCleanValue(items[i])
      {
        CleanValueFixpoint(items[i]);
      }
      if IsCleanValue(v) {
        assert w.items == items;
      } else {
        var i :| 0 <= i < |items| && items[i].Dict? && !IsCleanValue(items[i]);
        assert w.items[i] != items[i];
      }
    case Dict(fs) =>
      CleanDocFixpoint(fs);
    case _ =>
  }

  lemma {:induction false} CleanDocFixpoint(fs: seq<Field>)
    decreases Dict(fs), 0
    ensures CleanDoc(fs) == fs <==> IsCleanDoc(fs)
  {
    var r := CleanDoc(fs);
    forall i | 0 <= i < |fs|
      ensures r[i] == fs[i] <==> IsCleanValue(fs[i].val)
    {
      CleanValueFixpoint(fs[i].val);
    }
    if IsCleanDoc(fs) {
      assert r == fs;
    } else {
      var i :| 0 <= i < |fs| && !IsCleanValue(fs[i].val);
      assert r[i] != fs[i];
    }
  }

  /** Cleaning twice is the same as cleaning once. */
  lemma CleanDocIdempotent(fs: seq<Field>)
    ensures CleanDoc(CleanDoc(fs)) == CleanDoc(fs)
  {
    CleanDocIsClean(fs);
    CleanDocFixpoint(CleanDoc(fs));
  }
}
