/** The id helpers every route may use: converting a string id to an object
    id, and turning a document's object id into its string form. */
module DbUtils {
  import opened Wrappers
  import Strings

  /** A field value as the helpers see it. An object id carries its hex string. */
  datatype Value =
    | VNull
    | VUndefined
    | VBool(b: bool)
    | VNumber(n: int)
    | VString(s: string)
    | VObjectId(hex: string)
    | VObject(fields: map<string, Value>)

  /** A document: field names to values. */
  type Doc = map<string, Value>

  /** JavaScript truthiness. */
  predicate Truthy(v: Value) {
    match v
    case VNull => false
    case VUndefined => false
    case VBool(b) => b
    case VNumber(n) => n != 0
    case VString(s) => s != ""
    case VObjectId(_) => true
    case VObject(_) => true
  }

  /** An integer's decimal rendering with its sign. */
  function IntToString(n: int): string {
    if n < 0 then "-" + Strings.NatToString(-n) else Strings.NatToString(n)
  }

  /** `v.toString()` for the values an `_id` may hold. */
  function Stringify(v: Value): string {
    match v
    case VNull => "null"
    case VUndefined => "undefined"
    case VBool(b) => if b then "true" else "false"
    case VNumber(n) => IntToString(n)
    case VString(s) => s
    case VObjectId(hex) => hex
    case VObject(_) => "[object Object]"
  }

  /** A hexadecimal digit in either case. */
  predicate HexDigit(c: char) {
    '0' <= c <= '9' || 'a' <= c <= 'f' || 'A' <= c <= 'F'
  }

  /** A string `new ObjectId(s)` accepts: twenty-four hexadecimal digits. */
  predicate ObjectIdString(s: string) {
    |s| == 24 && forall i :: 0 <= i < |s| ==> HexDigit(s[i])
  }

  /** The form an object id prints in: twenty-four lower-case hexadecimal digits. */
  predicate CanonicalObjectId(s: string) {
    |s| == 24 && forall i :: 0 <= i < |s| ==> '0' <= s[i] <= '9' || 'a' <= s[i] <= 'f'
  }

  /** `toObjectId`: a string becomes an object id, anything else is returned as
      is. None is the exception `new ObjectId` throws on a string that is not
      twenty-four hexadecimal digits. The object id keeps the twelve bytes the
      digits spell, so it prints them in lower case. */
  function ToObjectId(id: Value): (r: Option<Value>)
    ensures !id.VString? ==> r == Some(id)
    ensures id.VString? ==> (r.Some? <==> ObjectIdString(id.s))
    ensures id.VString? && r.Some? ==>
      && r.value.VObjectId?
      && CanonicalObjectId(Stringify(r.value))
      && Stringify(r.value) == Strings.Lower(id.s)
  {
    match id
    case VString(s) => if ObjectIdString(s) then Some(VObjectId(Strings.Lower(s))) else None
    case _ => Some(id)
  }

  /** An accepted id string prints back unchanged exactly when it is already in
      lower case. */
  lemma LowerFixesCanonical(s: string)
    requires ObjectIdString(s)
    ensures Strings.Lower(s) == s <==> CanonicalObjectId(s)
  {
    if Strings.Lower(s) == s {
      forall i | 0 <= i < |s| ensures '0' <= s[i] <= '9' || 'a' <= s[i] <= 'f' {
        assert Strings.Lower(s)[i] == s[i];
      }
    }
    if CanonicalObjectId(s) {
      assert forall i :: 0 <= i < |s| ==> Strings.Lower(s)[i] == s[i];
    }
  }

  /** `normalizeId`: a falsy document (None) comes back as it is; otherwise a
      copy whose truthy `_id` is replaced by its string form. */
  function NormalizeId(doc: Option<Doc>): (r: Option<Doc>)
    ensures doc.None? ==> r.None?
    ensures doc.Some? ==> r.Some? && r.value.Keys == doc.value.Keys
    ensures doc.Some? ==> forall k :: k in doc.value && k != "_id" ==> r.value[k] == doc.value[k]
    ensures doc.Some? && "_id" in doc.value && Truthy(doc.value["_id"]) ==>
      r.value["_id"] == VString(Stringify(doc.value["_id"]))
    ensures doc.Some? && !("_id" in doc.value && Truthy(doc.value["_id"])) ==> r == doc
  {
    match doc
    case None => None
    case Some(d) =>
      if "_id" in d && Truthy(d["_id"]) then Some(d["_id" := VString(Stringify(d["_id"]))])
      else Some(d)
  }

  /** Normalising twice is normalising once: a string id is its own string form. */
  lemma NormalizeIdIdempotent(doc: Option<Doc>)
    ensures NormalizeId(NormalizeId(doc)) == NormalizeId(doc)
  {
    if doc.Some? && "_id" in doc.value && Truthy(doc.value["_id"]) {
      var once := NormalizeId(doc).value;
      assert once["_id"].VString?;
      if Truthy(once["_id"]) {
        assert once["_id" := VString(Stringify(once["_id"]))] == once;
      }
    }
  }

  /** An accepted id string converted to an object id and normalised back is
      its lower-case form, and that is the original string exactly when the
      original is canonical. */
  lemma ObjectIdRoundTrip(doc: Doc, id: string)
    requires ObjectIdString(id)
    ensures ToObjectId(VString(id)).Some?
    ensures NormalizeId(Some(doc["_id" := ToObjectId(VString(id)).value])) == Some(doc["_id" := VString(Strings.Lower(id))])
    ensures NormalizeId(Some(doc["_id" := ToObjectId(VString(id)).value])) == Some(doc["_id" := VString(id)])
            <==> CanonicalObjectId(id)
  {
    var oid := ToObjectId(VString(id)).value;
    assert doc["_id" := oid]["_id" := VString(Strings.Lower(id))] == doc["_id" := VString(Strings.Lower(id))];
    LowerFixesCanonical(id);
    if Strings.Lower(id) != id {
      assert doc["_id" := VString(Strings.Lower(id))]["_id"] != doc["_id" := VString(id)]["_id"];
    }
  }

  /** An upper-case id does not survive the round trip: it comes back in
      lower case. */
  lemma UpperCaseIdComesBackLower()
    ensures ToObjectId(VString("507F1F77BCF86CD799439011")) == Some(VObjectId("507f1f77bcf86cd799439011"))
  {
    var s := "507F1F77BCF86CD799439011";
    var t := "507f1f77bcf86cd799439011";
    assert ObjectIdString(s) by {
      forall i | 0 <= i < |s| ensures HexDigit(s[i]) { }
    }
    assert Strings.Lower(s) == t by {
      forall i | 0 <= i < |s| ensures Strings.Lower(s)[i] == t[i] { }
    }
  }

  /** `normalizeIds`: `normalizeId` on every document, in order. */
  function NormalizeIds(docs: seq<Option<Doc>>): (r: seq<Option<Doc>>)
    ensures |r| == |docs|
    ensures forall i :: 0 <= i < |docs| ==> r[i] == NormalizeId(docs[i])
  {
    seq(|docs|, i requires 0 <= i < |docs| => NormalizeId(docs[i]))
  }

  /** `normalizeIds` distributes over concatenation and is idempotent. */
  lemma NormalizeIdsLaws(a: seq<Option<Doc>>, b: seq<Option<Doc>>)
    ensures NormalizeIds(a + b) == NormalizeIds(a) + NormalizeIds(b)
    ensures NormalizeIds(NormalizeIds(a)) == NormalizeIds(a)
  {
    forall i | 0 <= i < |a| ensures NormalizeIds(NormalizeIds(a))[i] == NormalizeIds(a)[i] {
      NormalizeIdIdempotent(a[i]);
    }
  }
}
