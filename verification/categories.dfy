/**
 The document collection of the category browser and the one predicate that
 classifies it: a document belongs to category `id` when its category's
 identifier equals `id`. Counts, detail lists and the storage overview are all
 derived from that predicate.
 */
module Categories {
  import opened Wrappers

  /** The five category tags a document can carry. */
  datatype Category = Academic | Certificates | GovtProof | Others | Notes

  /** The identifier string of a category, as compared against the selected category. */
  function Id(c: Category): string {
    match c
    case Academic => "academic"
    case Certificates => "certificates"
    case GovtProof => "govt-proof"
    case Others => "others"
    case Notes => "notes"
  }

  /** The category with identifier `id`, if there is one. */
  function FromId(id: string): (r: Option<Category>)
    ensures r.Some? ==> Id(r.value) == id
    ensures forall c :: Id(c) == id ==> r == Some(c)
  {
    if id == "academic" then Some(Academic)
    else if id == "certificates" then Some(Certificates)
    else if id == "govt-proof" then Some(GovtProof)
    else if id == "others" then Some(Others)
    else if id == "notes" then Some(Notes)
    else None
  }

  /** A document or a note; `content` is present for notes only (by convention of the data). */
  datatype Document = Document(
    id: string,
    name: string,
    docType: string,
    size: string,
    uploadDate: string,
    category: Category,
    content: Option<string>)

  /** `doc.category === id` */
  predicate InCategory(d: Document, id: string)
    ensures InCategory(d, id) <==> FromId(id) == Some(d.category)
  {
    Id(d.category) == id
  }

  /** `documents.filter(doc => doc.category === id)` */
  function OfCategory(docs: seq<Document>, id: string): (r: seq<Document>)
    ensures |r| <= |docs|
    ensures forall d :: d in r ==> d in docs && InCategory(d, id)
    ensures forall d :: d in docs && InCategory(d, id) ==> d in r
    ensures FromId(id).None? ==> r == []
  {
    if docs == [] then []
    else (if InCategory(docs[0], id) then [docs[0]] else []) + OfCategory(docs[1..], id)
  }

  /** `documents.filter(doc => doc.category !== id)` */
  function NotOfCategory(docs: seq<Document>, id: string): (r: seq<Document>)
    ensures |r| <= |docs|
    ensures forall d :: d in r ==> d in docs && !InCategory(d, id)
    ensures forall d :: d in docs && !InCategory(d, id) ==> d in r
  {
    if docs == [] then []
    else (if !InCategory(docs[0], id) then [docs[0]] else []) + NotOfCategory(docs[1..], id)
  }

  /** Reference count: the number of positions of `docs` holding a document of category `id`. */
  function CountIn(docs: seq<Document>, id: string): nat {
    if docs == [] then 0 else (if InCategory(docs[0], id) then 1 else 0) + CountIn(docs[1..], id)
  }

  /** The filtered list is as long as the number of matching documents. */
  lemma {:induction false} FilterLengthIsCount(docs: seq<Document>, id: string)
    ensures |OfCategory(docs, id)| == CountIn(docs, id)
  {
    if docs != [] {
      FilterLengthIsCount(docs[1..], id);
    }
  }

  /** Counting distributes over concatenation. */
  lemma {:induction false} CountInAppend(a: seq<Document>, b: seq<Document>, id: string)
    ensures CountIn(a + b, id) == CountIn(a, id) + CountIn(b, id)
  {
    if a == [] {
      assert a + b == b;
    } else {
      var ab := a + b;
      assert ab[0] == a[0] && ab[1..] == a[1..] + b;
      CountInAppend(a[1..], b, id);
    }
  }

  /** In a block whose documents all share category `c`, the count is the block size for `c` and zero otherwise. */
  lemma {:induction false} CountInUniform(block: seq<Document>, c: Category, id: string)
    requires forall d :: d in block ==> d.category == c
    ensures CountIn(block, id) == if Id(c) == id then |block| else 0
  {
    if block != [] {
      assert block[0] in block;
      assert forall d :: d in block[1..] ==> d in block;
      CountInUniform(block[1..], c, id);
    }
  }

  /** `xs` can be obtained from `ys` by deleting elements, keeping the order of the rest. */
  ghost predicate IsSubsequence<T>(xs: seq<T>, ys: seq<T>)
    decreases |ys|
  {
    if xs == [] then true
    else if ys == [] then false
    else (xs[0] == ys[0] && IsSubsequence(xs[1..], ys[1..])) || IsSubsequence(xs, ys[1..])
  }

  /** The filtered list keeps the documents in the order of the collection. */
  lemma {:induction false} FilterIsSubsequence(docs: seq<Document>, id: string)
    ensures IsSubsequence(OfCategory(docs, id), docs)
  {
    if docs != [] {
      FilterIsSubsequence(docs[1..], id);
      var rest := OfCategory(docs[1..], id);
      if InCategory(docs[0], id) {
        assert OfCategory(docs, id) == [docs[0]] + rest;
        assert ([docs[0]] + rest)[1..] == rest;
      } else {
        assert OfCategory(docs, id) == rest;
        if rest != [] {
          assert IsSubsequence(rest, docs[1..]);
        }
      }
    }
  }

  /**
   Every document of the category occurs in the filtered list exactly as often as
   in the collection, and no other document occurs at all.
   */
  lemma {:induction false} FilterMultiplicity(docs: seq<Document>, id: string, d: Document)
    ensures multiset(OfCategory(docs, id))[d] == if InCategory(d, id) then multiset(docs)[d] else 0
  {
    if docs != [] {
      FilterMultiplicity(docs[1..], id, d);
      assert docs == [docs[0]] + docs[1..];
      assert multiset(docs) == multiset([docs[0]]) + multiset(docs[1..]);
      var head := if InCategory(docs[0], id) then [docs[0]] else [];
      assert multiset(OfCategory(docs, id)) == multiset(head) + multiset(OfCategory(docs[1..], id));
    }
  }

  /** The two filters split the collection: together they hold every document exactly once. */
  lemma {:induction false} FilterPartition(docs: seq<Document>, id: string)
    ensures multiset(OfCategory(docs, id)) + multiset(NotOfCategory(docs, id)) == multiset(docs)
  {
    if docs != [] {
      var tail := docs[1..];
      FilterPartition(tail, id);
      assert docs == [docs[0]] + tail;
      assert multiset(docs) == multiset([docs[0]]) + multiset(tail);
      var yes := OfCategory(tail, id);
      var no := NotOfCategory(tail, id);
      if InCategory(docs[0], id) {
        assert OfCategory(docs, id) == [docs[0]] + yes;
        assert NotOfCategory(docs, id) == no;
        assert multiset([docs[0]] + yes) == multiset([docs[0]]) + multiset(yes);
      } else {
        assert OfCategory(docs, id) == yes;
        assert NotOfCategory(docs, id) == [docs[0]] + no;
        assert multiset([docs[0]] + no) == multiset([docs[0]]) + multiset(no);
      }
    }
  }

  /** The two filtered lists are together as long as the collection. */
  lemma FilterPartitionSize(docs: seq<Document>, id: string)
    ensures |OfCategory(docs, id)| + |NotOfCategory(docs, id)| == |docs|
  {
    FilterPartition(docs, id);
    assert |multiset(OfCategory(docs, id)) + multiset(NotOfCategory(docs, id))| == |multiset(docs)|;
  }

  /** Each document carries exactly one of the five categories, so the five counts add up to the total. */
  lemma {:induction false} CountsCoverCollection(docs: seq<Document>)
    ensures CountIn(docs, "academic") + CountIn(docs, "certificates") + CountIn(docs, "govt-proof")
            + CountIn(docs, "notes") + CountIn(docs, "others") == |docs|
  {
    if docs != [] {
      CountsCoverCollection(docs[1..]);
    }
  }

  /** A category card: its identifier, display name and count (icon and colours are not modelled). */
  datatype CategoryCard = CategoryCard(id: string, name: string, count: nat)

  /** The cards in display order. */
  const CardOrder: seq<Category> := [Academic, Certificates, GovtProof, Notes, Others]

  function DisplayName(c: Category): string {
    match c
    case Academic => "Academic"
    case Certificates => "Certificates"
    case GovtProof => "Government Proof"
    case Notes => "Notes"
    case Others => "Others"
  }

  /** One card of the `categories` array: the count filters the collection by the card's identifier. */
  function Card(docs: seq<Document>, c: Category): (r: CategoryCard)
    ensures r.id == Id(c) && r.name == DisplayName(c)
    ensures r.count == CountIn(docs, Id(c))
  {
    FilterLengthIsCount(docs, Id(c));
    CategoryCard(Id(c), DisplayName(c), |OfCategory(docs, Id(c))|)
  }

  /** The `categories` array in display order. */
  function Cards(docs: seq<Document>): (r: seq<CategoryCard>)
    ensures |r| == |CardOrder|
    ensures forall i :: 0 <= i < |r| ==>
      && r[i].id == Id(CardOrder[i])
      && r[i].name == DisplayName(CardOrder[i])
      && r[i].count == CountIn(docs, r[i].id)
  {
    [Card(docs, Academic), Card(docs, Certificates), Card(docs, GovtProof), Card(docs, Notes), Card(docs, Others)]
  }

  /** Every category appears on exactly one card, and the five counts sum to the collection size. */
  lemma CardsCoverCategories(docs: seq<Document>)
    ensures forall c: Category :: exists i :: 0 <= i < |Cards(docs)| && Cards(docs)[i].id == Id(c)
    ensures Cards(docs)[0].count + Cards(docs)[1].count + Cards(docs)[2].count
            + Cards(docs)[3].count + Cards(docs)[4].count == |docs|
  {
    var r := Cards(docs);
    forall c: Category
      ensures exists i :: 0 <= i < |r| && r[i].id == Id(c)
    {
      match c
      case Academic => assert r[0].id == Id(c);
      case Certificates => assert r[1].id == Id(c);
      case GovtProof => assert r[2].id == Id(c);
      case Notes => assert r[3].id == Id(c);
      case Others => assert r[4].id == Id(c);
    }
    CountsCoverCollection(docs);
  }

  /** `categories.find(cat => cat.id === id)` */
  function FindCard(cards: seq<CategoryCard>, id: string): (r: Option<CategoryCard>)
    ensures r.Some? ==> r.value in cards && r.value.id == id
    ensures r.Some? ==>
      exists i :: 0 <= i < |cards| && cards[i] == r.value && forall j :: 0 <= j < i ==> cards[j].id != id
    ensures r.None? ==> forall c :: c in cards ==> c.id != id
  {
    if cards == [] then None
    else if cards[0].id == id then Some(cards[0])
    else FindCard(cards[1..], id)
  }

  /** Looking a card up by identifier succeeds exactly for the five category identifiers. */
  lemma FindCardKnown(docs: seq<Document>, id: string)
    ensures FindCard(Cards(docs), id).Some? <==> FromId(id).Some?
    ensures FindCard(Cards(docs), id).Some? ==> FindCard(Cards(docs), id).value == Card(docs, FromId(id).value)
  {
    var cards := Cards(docs);
    var r := FindCard(cards, id);
    if FromId(id).Some? {
      var c := FromId(id).value;
      assert Card(docs, c) in cards by {
        match c
        case Academic => assert cards[0] == Card(docs, c);
        case Certificates => assert cards[1] == Card(docs, c);
        case GovtProof => assert cards[2] == Card(docs, c);
        case Notes => assert cards[3] == Card(docs, c);
        case Others => assert cards[4] == Card(docs, c);
      }
    }
    if r.Some? {
      var i :| 0 <= i < |cards| && cards[i] == r.value;
      assert Id(CardOrder[i]) == id;
      assert cards[i] == Card(docs, CardOrder[i]);
    }
  }

  /** The storage overview: total items, documents (not notes) and notes. */
  datatype Overview = Overview(total: nat, documents: nat, notes: nat)

  function StorageOverview(docs: seq<Document>): (r: Overview)
    ensures r.documents + r.notes == r.total
    ensures r.total == |docs|
    ensures r.notes == CountIn(docs, Id(Notes))
  {
    FilterPartitionSize(docs, Id(Notes));
    FilterLengthIsCount(docs, Id(Notes));
    Overview(|docs|, |NotOfCategory(docs, Id(Notes))|, |OfCategory(docs, Id(Notes))|)
  }

  /** The unit after a count: singular exactly for one. */
  function CountLabel(n: int): (r: string)
    ensures r == "item" <==> n == 1
    ensures r == "items" <==> n != 1
  {
    if n == 1 then "item" else "items"
  }
}
