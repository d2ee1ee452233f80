/** Unwrapping a receipt: encoded bodies, and one more layer of encoded batches inside a list body. */
module MoneyDecode {
  import opened Prelude
  import opened Json
  import opened MoneyGate

  /** Decoding one encoded body: none unless it is a nonempty list of bytes that hold one JSON text. */
  type BodyDecoder = Value -> Option<Value>

  /** All batches of a list body, if every one is an object. */
  function Batches(inner: BodyDecoder, xs: seq<Value>): (r: Option<seq<Value>>)
    ensures r.Some? ==> |r.value| == |xs| && forall j :: 0 <= j < |xs| ==>
      inner(xs[j]) == Some(r.value[j]) && r.value[j].Obj?
    ensures r.None? <==> exists j :: 0 <= j < |xs| && !(inner(xs[j]).Some? && inner(xs[j]).value.Obj?)
  {
    if xs == [] then Some([])
    else
      var n := |xs| - 1;
      var front := Batches(inner, xs[..n]);
      var last := inner(xs[n]);
      assert forall j :: 0 <= j < n ==> xs[..n][j] == xs[j];
      if front.None? then None
      else if last.None? || !last.value.Obj? then None
      else Some(front.value + [last.value])
  }

  /** One element of the receipt: a batch envelope, or a nonempty list of encoded ones. */
  function Element(outer: BodyDecoder, inner: BodyDecoder, encoded: Value): (r: Option<Value>)
    ensures r.Some? ==> r.value.Obj? || IsBatchList(r.value)
  {
    match outer(encoded)
    case Some(Obj(f)) => Some(Obj(f))
    case Some(Arr(xs)) =>
      if xs == [] then None
      else (match Batches(inner, xs) case Some(bs) => Some(Arr(bs)) case None => None)
    case _ => None
  }

  /** The element is one object, or a nonempty list each of whose batches decodes to the object in its place. */
  ghost predicate Decodes(outer: BodyDecoder, inner: BodyDecoder, encoded: Value, v: Value) {
    var body := outer(encoded);
    && body.Some?
    && (|| (body.value.Obj? && v == body.value)
        || (&& body.value.Arr? && body.value.items != [] && v.Arr? && |v.items| == |body.value.items|
            && forall j :: 0 <= j < |v.items| ==> v.items[j].Obj? && inner(body.value.items[j]) == Some(v.items[j])))
  }

  lemma ElementIs(outer: BodyDecoder, inner: BodyDecoder, encoded: Value, v: Value)
    ensures Element(outer, inner, encoded) == Some(v) <==> Decodes(outer, inner, encoded, v)
  {
    hide Batches;
    var body := outer(encoded);
    if body.Some? && body.value.Arr? && body.value.items != [] {
      var r := Batches(inner, body.value.items);
      if r.Some? && Decodes(outer, inner, encoded, v) {
        assert forall j :: 0 <= j < |v.items| ==> Some(v.items[j]) == Some(r.value[j]);
        assert v.items == r.value;
      }
    }
  }

  /** The envelope paths of the elements of a receipt, as the decoder names them. */
  function EnvelopePaths(items: seq<Value>): set<string> {
    (set i | 0 <= i < |items| && items[i].Obj? :: IndexText(i))
    + (set i, j | 0 <= i < |items| && items[i].Arr? && 0 <= j < |items[i].items| :: IndexText(i) + IndexText(j))
  }

  function ElementPaths(i: nat, v: Value): set<string> {
    match v
    case Obj(_) => {IndexText(i)}
    case Arr(xs) => set j | 0 <= j < |xs| :: IndexText(i) + IndexText(j)
    case _ => {}
  }

  lemma PathsSnoc(items: seq<Value>, v: Value)
    ensures EnvelopePaths(items + [v]) == EnvelopePaths(items) + ElementPaths(|items|, v)
  {
    hide IndexText;
    var all := items + [v];
    assert forall i :: 0 <= i < |items| ==> all[i] == items[i];
    forall p | p in EnvelopePaths(all) ensures p in EnvelopePaths(items) + ElementPaths(|items|, v) {
      if i :| 0 <= i < |all| && all[i].Obj? && p == IndexText(i) {
      } else {
        var i, j :| 0 <= i < |all| && all[i].Arr? && 0 <= j < |all[i].items| && p == IndexText(i) + IndexText(j);
        assert i < |items| ==> items[i].Arr?;
      }
    }
    forall p | p in EnvelopePaths(items) + ElementPaths(|items|, v) ensures p in EnvelopePaths(all) {
      if p in ElementPaths(|items|, v) {
        assert all[|items|] == v;
      } else if i :| 0 <= i < |items| && items[i].Obj? && p == IndexText(i) {
        assert all[i].Obj?;
      } else {
        var i, j :| 0 <= i < |items| && items[i].Arr? && 0 <= j < |items[i].items| && p == IndexText(i) + IndexText(j);
        assert all[i].Arr?;
      }
    }
  }

  method DecodeBatches(inner: BodyDecoder, path: string, xs: seq<Value>)
    returns (r: Option<seq<Value>>, paths: set<string>)
    ensures r == Batches(inner, xs)
    ensures r.Some? ==> paths == set j | 0 <= j < |xs| :: path + IndexText(j)
  {
    hide IndexText;
    var batches := [];
    paths := {};
    for j := 0 to |xs|
      invariant Batches(inner, xs[..j]) == Some(batches)
      invariant paths == set k | 0 <= k < j :: path + IndexText(k)
    {
      assert xs[..j + 1][..j] == xs[..j];
      var batch := inner(xs[j]);
      if batch.None? || !batch.value.Obj? { return None, paths; }
      batches := batches + [batch.value];
      paths := paths + {path + IndexText(j)};
    }
    assert xs[..|xs|] == xs;
    r := Some(batches);
  }

  /** `decode_receipt`: fails exactly when the receipt is not a nonempty list of decodable elements; otherwise the
      result is a receipt tree, element by element, with the paths of exactly its batch envelopes. */
  method DecodeReceipt(receipt: Option<Value>, outer: BodyDecoder, inner: BodyDecoder)
    returns (r: Option<(Value, set<string>)>)
    ensures r.Some? <==>
      && receipt.Some? && receipt.value.Arr? && receipt.value.items != []
      && forall i :: 0 <= i < |receipt.value.items| ==> Element(outer, inner, receipt.value.items[i]).Some?
    ensures r.Some? ==> IsReceipt(r.value.0) && r.value.1 == Envelopes(r.value.0)
    ensures r.Some? ==> |r.value.0.items| == |receipt.value.items|
    ensures r.Some? ==> forall i :: 0 <= i < |receipt.value.items| ==>
      && Element(outer, inner, receipt.value.items[i]) == Some(r.value.0.items[i])
      && Decodes(outer, inner, receipt.value.items[i], r.value.0.items[i])
    ensures r.None? && receipt.Some? && receipt.value.Arr? && receipt.value.items != [] ==>
      exists i :: 0 <= i < |receipt.value.items| && forall v :: !Decodes(outer, inner, receipt.value.items[i], v)
  {
    hide IndexText, Batches, IsBatchList, Decodes;
    forall encoded, v ensures Element(outer, inner, encoded) == Some(v) <==> Decodes(outer, inner, encoded, v) {
      ElementIs(outer, inner, encoded, v);
    }
    if receipt.None? || !receipt.value.Arr? || receipt.value.items == [] { return None; }
    var encoded := receipt.value.items;
    var decoded, envelopes := [], {};
    assert EnvelopePaths([]) == {};
    for i := 0 to |encoded|
      invariant |decoded| == i && envelopes == EnvelopePaths(decoded)
      invariant forall k :: 0 <= k < i ==> Element(outer, inner, encoded[k]) == Some(decoded[k])
    {
      var value := outer(encoded[i]);
      var element;
      if value.Some? && value.value.Obj? {
        element := value.value;
        envelopes := envelopes + {IndexText(i)};
      } else if value.Some? && value.value.Arr? && value.value.items != [] {
        var batches, paths := DecodeBatches(inner, IndexText(i), value.value.items);
        if batches.None? { return None; }
        element := Arr(batches.value);
        envelopes := envelopes + paths;
      } else {
        return None;
      }
      assert Element(outer, inner, encoded[i]) == Some(element);
      PathsSnoc(decoded, element);
      decoded := decoded + [element];
    }
    forall k | 0 <= k < |decoded| ensures decoded[k].Obj? || IsBatchList(decoded[k]) {
      assert Element(outer, inner, encoded[k]) == Some(decoded[k]);
    }
    r := Some((Arr(decoded), envelopes));
  }
}
