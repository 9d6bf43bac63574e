/** The seed script (prisma/seed.ts): the category table is emptied and then
    filled with a fixed two-level forest, each top-level category created
    before its subcategories, which point at it through `parentId`. */
module Seed {
  import opened Common
  import opened Schema
  import Store

  datatype SeedLeaf = SeedLeaf(name: string, slug: string)
  datatype SeedEntry = SeedEntry(name: string, slug: string, subcategories: seq<SeedLeaf>)

  /** The `categories` table of the script. */
  const SeedCategories: seq<SeedEntry> := [
    SeedEntry("Painting", "painting", [
        SeedLeaf("Oil", "oil-painting"),
        SeedLeaf("Acrylic", "acrylic-painting"),
        SeedLeaf("Watercolor", "watercolor-painting"),
        SeedLeaf("Mixed Media", "mixed-media-painting"),
        SeedLeaf("Digital Painting", "digital-painting"),
        SeedLeaf("Abstract", "abstract-painting"),
        SeedLeaf("Portrait", "portrait-painting"),
        SeedLeaf("Landscape", "landscape-painting")
      ]),
    SeedEntry("Sculpture", "sculpture", [
        SeedLeaf("Bronze", "bronze-sculpture"),
        SeedLeaf("Stone", "stone-sculpture"),
        SeedLeaf("Wood", "wood-sculpture"),
        SeedLeaf("Metal", "metal-sculpture"),
        SeedLeaf("Ceramic", "ceramic-sculpture"),
        SeedLeaf("Glass", "glass-sculpture"),
        SeedLeaf("Installation", "installation-sculpture"),
        SeedLeaf("Kinetic", "kinetic-sculpture")
      ]),
    SeedEntry("Photography", "photography", [
        SeedLeaf("Portrait", "portrait-photography"),
        SeedLeaf("Landscape", "landscape-photography"),
        SeedLeaf("Street", "street-photography"),
        SeedLeaf("Fine Art", "fine-art-photography"),
        SeedLeaf("Documentary", "documentary-photography"),
        SeedLeaf("Architectural", "architectural-photography"),
        SeedLeaf("Fashion", "fashion-photography"),
        SeedLeaf("Abstract", "abstract-photography")
      ]),
    SeedEntry("Digital Art", "digital-art", [
        SeedLeaf("3D Art", "3d-art"),
        SeedLeaf("Digital Illustration", "digital-illustration"),
        SeedLeaf("NFT Art", "nft-art"),
        SeedLeaf("Motion Graphics", "motion-graphics"),
        SeedLeaf("Generative Art", "generative-art"),
        SeedLeaf("Digital Collage", "digital-collage")
      ]),
    SeedEntry("Printmaking", "printmaking", [
        SeedLeaf("Lithography", "lithography"),
        SeedLeaf("Etching", "etching"),
        SeedLeaf("Screen Printing", "screen-printing"),
        SeedLeaf("Woodcut", "woodcut"),
        SeedLeaf("Linocut", "linocut"),
        SeedLeaf("Monotype", "monotype")
      ]),
    SeedEntry("Textile Art", "textile-art", [
        SeedLeaf("Weaving", "weaving"),
        SeedLeaf("Embroidery", "embroidery"),
        SeedLeaf("Quilting", "quilting"),
        SeedLeaf("Fiber Art", "fiber-art"),
        SeedLeaf("Tapestry", "tapestry"),
        SeedLeaf("Batik", "batik")
      ]),
    SeedEntry("African Art", "african-art", [
        SeedLeaf("Masks", "african-masks"),
        SeedLeaf("Sculptures", "african-sculptures"),
        SeedLeaf("Textiles", "african-textiles"),
        SeedLeaf("Paintings", "african-paintings"),
        SeedLeaf("Beadwork", "african-beadwork"),
        SeedLeaf("Contemporary African", "contemporary-african"),
        SeedLeaf("Traditional", "traditional-african"),
        SeedLeaf("Tribal Art", "tribal-art")
      ]),
    SeedEntry("Cultural Art", "cultural-art", [
        SeedLeaf("Indigenous Art", "indigenous-art"),
        SeedLeaf("Folk Art", "folk-art"),
        SeedLeaf("Ceremonial Art", "ceremonial-art"),
        SeedLeaf("Religious Art", "religious-art"),
        SeedLeaf("Traditional Crafts", "traditional-crafts")
      ])
  ]

  /** The number of rows the first `n` entries create: each entry and each of its subcategories. */
  function CountUpTo(entries: seq<SeedEntry>, n: nat): nat
    requires n <= |entries|
    decreases n
  {
    if n == 0 then 0 else CountUpTo(entries, n - 1) + 1 + |entries[n - 1].subcategories|
  }

  function RowCount(entries: seq<SeedEntry>): nat {
    CountUpTo(entries, |entries|)
  }

  /** The subcategory rows of one entry, created with consecutive ids from `first`. */
  function ChildRows(leaves: seq<SeedLeaf>, parent: Id, first: Id): (r: seq<Category>)
    ensures |r| == |leaves|
  {
    seq(|leaves|, k requires 0 <= k < |leaves| => Category(first + k, leaves[k].name, leaves[k].slug, Some(parent)))
  }

  /** The rows one entry creates: the entry itself with no parent, then its subcategories. */
  function EntryRows(e: SeedEntry, id: Id): seq<Category> {
    [Category(id, e.name, e.slug, None)] + ChildRows(e.subcategories, id, id + 1)
  }

  /** The rows the first `n` entries create, ids drawn from `start` on. */
  function RowsUpTo(entries: seq<SeedEntry>, n: nat, start: Id): (r: seq<Category>)
    requires n <= |entries|
    ensures |r| == CountUpTo(entries, n)
    decreases n
  {
    if n == 0 then []
    else RowsUpTo(entries, n - 1, start) + EntryRows(entries[n - 1], start + CountUpTo(entries, n - 1))
  }

  /** The rows the whole list creates. */
  function SeedRows(entries: seq<SeedEntry>, start: Id): (r: seq<Category>)
    ensures |r| == RowCount(entries)
  {
    RowsUpTo(entries, |entries|, start)
  }

  /** A forest of depth at most one, listed parents first: every row with a
      parent comes after that parent, and the parent has no parent itself. */
  ghost predicate ParentsFirst(rows: seq<Category>) {
    forall k :: 0 <= k < |rows| && rows[k].parentId.Some? ==>
      exists p :: 0 <= p < k && rows[p].id == rows[k].parentId.value && rows[p].parentId.None?
  }

  predicate IsRoot(c: Category) {
    c.parentId.None?
  }

  // ---------------------------------------------------------------------
  // The script

  /** The inner loop of `main`: a create per subcategory, each with `parentId`. */
  method CreateSubcategories(db: Store.Database, leaves: seq<SeedLeaf>, parentId: Id)
    modifies db
    requires db.Valid()
    ensures db.Valid()
    ensures db.categories == old(db.categories) + ChildRows(leaves, parentId, old(db.nextId))
    ensures db.nextId == old(db.nextId) + |leaves|
    ensures db.users == old(db.users) && db.preferences == old(db.preferences)
    ensures db.artworks == old(db.artworks) && db.collections == old(db.collections)
  {
    var j := 0;
    while j < |leaves|
      invariant 0 <= j <= |leaves|
      invariant db.Valid()
      invariant db.nextId == old(db.nextId) + j
      invariant db.categories == old(db.categories) + ChildRows(leaves[..j], parentId, old(db.nextId))
      invariant db.users == old(db.users) && db.preferences == old(db.preferences)
      invariant db.artworks == old(db.artworks) && db.collections == old(db.collections)
    {
      var leaf := leaves[j];
      var c := db.CreateCategory(leaf.name, leaf.slug, Some(parentId));
      assert ChildRows(leaves[..j + 1], parentId, old(db.nextId))
        == ChildRows(leaves[..j], parentId, old(db.nextId)) + [c];
      j := j + 1;
    }
    assert leaves[..j] == leaves;
  }

  /** One iteration of the outer loop: the entry, then its subcategories. */
  method CreateEntry(db: Store.Database, entry: SeedEntry)
    modifies db
    requires db.Valid()
    ensures db.Valid()
    ensures db.categories == old(db.categories) + EntryRows(entry, old(db.nextId))
    ensures db.nextId == old(db.nextId) + 1 + |entry.subcategories|
    ensures db.users == old(db.users) && db.preferences == old(db.preferences)
    ensures db.artworks == old(db.artworks) && db.collections == old(db.collections)
  {
    var parent := db.CreateCategory(entry.name, entry.slug, None);
    CreateSubcategories(db, entry.subcategories, parent.id);
  }

  /** `main`: `deleteMany`, then for every entry a create of the entry and a
      create of each of its subcategories with the entry's new id as parent. */
  method CreateCategories(db: Store.Database, entries: seq<SeedEntry>)
    modifies db
    requires db.Valid()
    ensures db.Valid()
    ensures db.categories == SeedRows(entries, old(db.nextId))
    ensures db.nextId == old(db.nextId) + RowCount(entries)
    ensures db.users == old(db.users) && db.preferences == old(db.preferences)
    ensures db.artworks == old(db.artworks) && db.collections == old(db.collections)
  {
    db.DeleteAllCategories();
    ghost var start := db.nextId;
    var i := 0;
    while i < |entries|
      invariant 0 <= i <= |entries|
      invariant db.Valid()
      invariant db.nextId == start + CountUpTo(entries, i)
      invariant db.categories == RowsUpTo(entries, i, start)
      invariant db.users == old(db.users) && db.preferences == old(db.preferences)
      invariant db.artworks == old(db.artworks) && db.collections == old(db.collections)
    {
      CreateEntry(db, entries[i]);
      i := i + 1;
    }
  }

  method SeedMain(db: Store.Database)
    modifies db
    requires db.Valid()
    ensures db.Valid()
    ensures db.categories == SeedRows(SeedCategories, old(db.nextId))
    ensures db.users == old(db.users) && db.preferences == old(db.preferences)
    ensures db.artworks == old(db.artworks) && db.collections == old(db.collections)
  {
    CreateCategories(db, SeedCategories);
  }

  // ---------------------------------------------------------------------
  // The shape of the seeded table

  /** Rows get consecutive ids in creation order. */
  lemma {:induction false} RowsUpToIds(entries: seq<SeedEntry>, n: nat, start: Id)
    requires n <= |entries|
    ensures forall k :: 0 <= k < |RowsUpTo(entries, n, start)| ==> RowsUpTo(entries, n, start)[k].id == start + k
    decreases n
  {
    if n > 0 {
      RowsUpToIds(entries, n - 1, start);
    }
  }

  /** Every subcategory row comes after its entry's row, and that row has no parent. */
  lemma {:induction false} RowsUpToParentsFirst(entries: seq<SeedEntry>, n: nat, start: Id)
    requires n <= |entries|
    ensures ParentsFirst(RowsUpTo(entries, n, start))
    decreases n
  {
    if n > 0 {
      RowsUpToParentsFirst(entries, n - 1, start);
      var prev := RowsUpTo(entries, n - 1, start);
      var id := start + CountUpTo(entries, n - 1);
      var here := EntryRows(entries[n - 1], id);
      var rows := RowsUpTo(entries, n, start);
      assert rows == prev + here;
      forall k | 0 <= k < |rows| && rows[k].parentId.Some?
        ensures exists p :: 0 <= p < k && rows[p].id == rows[k].parentId.value && rows[p].parentId.None?
      {
        if k < |prev| {
          assert rows[k] == prev[k];
          var p :| 0 <= p < k && prev[p].id == prev[k].parentId.value && prev[p].parentId.None?;
          assert rows[p] == prev[p];
        } else {
          assert k > |prev|;
          assert rows[|prev|] == here[0];
        }
      }
    }
  }

  /** The seeded table is a forest of depth at most one, parents listed first,
      with consecutive ids from the counter's value. */
  lemma SeedRowsShape(entries: seq<SeedEntry>, start: Id)
    ensures ParentsFirst(SeedRows(entries, start))
    ensures forall k :: 0 <= k < |SeedRows(entries, start)| ==> SeedRows(entries, start)[k].id == start + k
  {
    RowsUpToParentsFirst(entries, |entries|, start);
    RowsUpToIds(entries, |entries|, start);
  }

  /** Exactly one row per entry has no parent; the others are its subcategories. */
  lemma {:induction false} RowsUpToRoots(entries: seq<SeedEntry>, n: nat, start: Id)
    requires n <= |entries|
    ensures |Filter(RowsUpTo(entries, n, start), IsRoot)| == n
    decreases n
  {
    if n > 0 {
      RowsUpToRoots(entries, n - 1, start);
      var id := start + CountUpTo(entries, n - 1);
      var e := entries[n - 1];
      FilterAppend(RowsUpTo(entries, n - 1, start), EntryRows(e, id), IsRoot);
      FilterAppend([Category(id, e.name, e.slug, None)], ChildRows(e.subcategories, id, id + 1), IsRoot);
      NoRootChildren(e.subcategories, id, id + 1);
    }
  }

  lemma {:induction false} NoRootChildren(leaves: seq<SeedLeaf>, parent: Id, first: Id)
    ensures Filter(ChildRows(leaves, parent, first), IsRoot) == []
    decreases |leaves|
  {
    if leaves != [] {
      NoRootChildren(leaves[1..], parent, first + 1);
      assert ChildRows(leaves, parent, first)[1..] == ChildRows(leaves[1..], parent, first + 1);
    }
  }

  /** The script's table: 8 top-level categories and 55 subcategories, 63 rows. */
  lemma SeedCounts(start: Id)
    ensures RowCount(SeedCategories) == 63
    ensures |Filter(SeedRows(SeedCategories, start), IsRoot)| == 8
  {
    var e := SeedCategories;
    assert CountUpTo(e, 1) == 9;
    assert CountUpTo(e, 2) == 18;
    assert CountUpTo(e, 3) == 27;
    assert CountUpTo(e, 4) == 34;
    assert CountUpTo(e, 5) == 41;
    assert CountUpTo(e, 6) == 48;
    assert CountUpTo(e, 7) == 57;
    RowsUpToRoots(e, |e|, start);
  }
}
