/** The cache of s-expressions handed out to JavaScript by number: `ObjectCache`. */
module ObjectCaching {
  import opened Numbers
  import opened SExpressions
  import opened Streams
  import opened Serialization
  import opened Deserialization

  /** Serialized content decodes to the CLVM value of an s-expression. */
  predicate Decodes(content: bytes, s: SExp) {
    ParseTree(content).Some? && ParseTree(content).value.0 == ConvertTo(s)
  }

  predicate NoRepeats(order: seq<int>) {
    forall i, j :: 0 <= i < j < |order| ==> order[i] != order[j]
  }

  /** Removing the first of distinct elements removes exactly that one. */
  lemma {:induction false} DropFirst(order: seq<int>)
    requires order != [] && NoRepeats(order)
    ensures NoRepeats(order[1..]) && forall x :: x in order[1..] <==> x in order && x != order[0]
  {
    forall x | x in order && x != order[0] ensures x in order[1..] {
      var i :| 0 <= i < |order| && order[i] == x;
      assert order[1..][i - 1] == x;
    }
  }

  class ObjectCache {
    const cacheLength: nat
    var cacheData: map<int, SExp>
    var cacheOrder: seq<int>
    /** The content that belongs to each number seen so far. */
    ghost var contents: map<int, bytes>

    /** The two tables list the same numbers, each once, and at most one more than the limit. */
    ghost predicate Valid()
      reads this
    {
      NoRepeats(cacheOrder) && (forall id :: id in cacheOrder <==> id in cacheData)
      && |cacheOrder| <= cacheLength + 1
      && (forall id :: id in cacheData ==> id >= 0 && id in contents)
    }

    /** What is cached for a number is what its content decodes to. */
    ghost predicate Faithful()
      reads this
    {
      forall id :: id in cacheData && id in contents ==> Decodes(contents[id], cacheData[id])
    }

    constructor (cacheLength: nat)
      ensures Valid() && Faithful() && cacheData == map[] && contents == map[] && this.cacheLength == cacheLength
    {
      this.cacheLength, cacheData, cacheOrder, contents := cacheLength, map[], [], map[];
    }

    /** A new number goes to the end; the oldest makes room once the limit is exceeded. */
    method CreateOrUpdateCacheEntry(id: int, cacheMember: SExp)
      requires Valid() && id !in cacheData && (id >= 0 ==> id in contents)
      modifies this`cacheData, this`cacheOrder
      ensures Valid()
      ensures id < 0 ==> cacheData == old(cacheData) && cacheOrder == old(cacheOrder)
      ensures id >= 0 ==>
                var full := |old(cacheOrder)| > cacheLength;
                cacheOrder == (if full then old(cacheOrder)[1..] else old(cacheOrder)) + [id]
                && cacheData == (if full then old(cacheData) - {old(cacheOrder)[0]} else old(cacheData))[id := cacheMember]
    {
      if id < 0 {
        return;
      }
      if |cacheOrder| > cacheLength {
        DropFirst(cacheOrder);
        cacheData := cacheData - {cacheOrder[0]};
        cacheOrder := cacheOrder[1..];
      }
      cacheData := cacheData[id := cacheMember];
      cacheOrder := cacheOrder + [id];
    }

    /** A fresh number for an s-expression; its serialized form is handed out with it. */
    method CreateEntryFromSexp(id: int, sexp: SExp) returns (content: bytes)
      requires Valid() && id !in contents && id !in cacheData
      modifies this
      ensures Valid() && content == Serialize(ConvertTo(sexp)).data && contents == old(contents)[id := content]
      ensures id >= 0 ==> id in cacheData && cacheData[id] == sexp
      ensures old(Faithful()) && SizesSurvive(ConvertTo(sexp)) && Serialize(ConvertTo(sexp)).whole ==>
                Faithful() && Decodes(content, sexp)
    {
      var node := ConvertTo(sexp);
      var stream := new Stream([]);
      SexpToStream(node, stream);
      content := stream.buffer;
      assert stream.buffer[..stream.seek] == stream.buffer;
      contents := contents[id := content];
      CreateOrUpdateCacheEntry(id, sexp);
      if SizesSurvive(node) && Serialize(node).whole {
        SerializedRead(node, []);
        assert content + [] == content;
      }
    }

    /** Looking up a number together with its own content gives what the content decodes to, whether
        the number is still cached or not. */
    method FindOrCreateEntryFromHex(entry: int, content: bytes) returns (r: Option<SExp>)
      requires Valid() && Faithful() && (entry in contents ==> contents[entry] == content)
      modifies this
      ensures Valid() && Faithful() && contents == old(contents)[entry := content]
      ensures r.Some? <==> ParseTree(content).Some?
      ensures r.Some? ==> Decodes(content, r.value)
      ensures entry in old(cacheData) ==> cacheData == old(cacheData) && cacheOrder == old(cacheOrder)
    {
      contents := contents[entry := content];
      if entry in cacheData {
        return Some(cacheData[entry]);
      }
      var stream := new Stream(content);
      DecodeIsParsing(content);
      var parsed := SexpFromStream(stream);
      if parsed == None {
        return None;
      }
      var modern := ConvertFrom(parsed.value);
      ConvertFromThenTo(parsed.value);
      CreateOrUpdateCacheEntry(entry, modern);
      return Some(modern);
    }
  }

  /** The serialized form of an object decodes to the object exactly when its atoms' sizes survive;
      otherwise an evicted object comes back different. */
  lemma {:induction false} OwnContentDecodes(s: SExp)
    requires Serialize(ConvertTo(s)).whole
    ensures Decodes(Serialize(ConvertTo(s)).data, s) <==> SizesSurvive(ConvertTo(s))
  {
    SerializedRead(ConvertTo(s), []);
    assert Serialize(ConvertTo(s)).data + [] == Serialize(ConvertTo(s)).data;
  }
}
