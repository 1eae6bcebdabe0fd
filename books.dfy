/** The book record, its draft form and the statistics the book pages show.
    Shared by IndexBuku and BukuListPage, whose book logic is identical. */
module Books {
  import opened Js
  import opened Api

  /** A book as the server returns it. */
  datatype Book = Book(id: Id, judul: string, penulis: string, penerbit: string, tahun_terbit: int, stok: int)

  /** The keys of the book draft form. */
  const BookFields: set<string> := {"judul", "penulis", "penerbit", "tahun_terbit", "stok"}

  const LoadFailedText := "Gagal memuat data buku."
  const UpdatedText := "Buku berhasil diperbarui!"
  const CreatedText := "Buku berhasil ditambahkan!"
  const SaveFailedText := "Gagal menyimpan buku. Coba lagi."
  const DeletedText := "Buku berhasil dihapus!"
  const DeleteFailedText := "Gagal menghapus buku."

  /** The initial and the reset draft: five empty strings. */
  function EmptyDraft(): (d: Body)
    ensures d.Keys == BookFields
    ensures forall k | k in d :: d[k] == ""
  {
    map["judul" := "", "penulis" := "", "penerbit" := "", "tahun_terbit" := "", "stok" := ""]
  }

  /** The draft `handleEdit` builds from a book: the three text fields copied, year
      and stock stringified, the id left out. */
  function EditDraft(b: Book): (d: Body)
    ensures d.Keys == BookFields
    ensures d["judul"] == b.judul && d["penulis"] == b.penulis && d["penerbit"] == b.penerbit
    ensures ParseInt(d["tahun_terbit"]) == Some(b.tahun_terbit)
    ensures ParseInt(d["stok"]) == Some(b.stok)
  {
    ParseIntRoundTrip(b.tahun_terbit);
    ParseIntRoundTrip(b.stok);
    map["judul" := b.judul, "penulis" := b.penulis, "penerbit" := b.penerbit,
        "tahun_terbit" := IntToString(b.tahun_terbit), "stok" := IntToString(b.stok)]
  }

  /** Reading a submitted draft as a book with the given id, the numeric fields
      parsed as decimal integers; `None` when a field is missing or not a number. */
  function DraftToBook(id: Id, d: Body): Option<Book>
  {
    if BookFields <= d.Keys
       && ParseInt(d["tahun_terbit"]).Some? && ParseInt(d["stok"]).Some?
    then Some(Book(id, d["judul"], d["penulis"], d["penerbit"],
                   ParseInt(d["tahun_terbit"]).value, ParseInt(d["stok"]).value))
    else None
  }

  /** Editing a book and submitting the draft unchanged sends exactly that book. */
  lemma EditDraftRoundTrip(b: Book)
    ensures DraftToBook(b.id, EditDraft(b)) == Some(b)
  {
  }

  /** "Stok Tersedia": `buku.reduce((sum, b) => sum + b.stok, 0)`, folded from the left. */
  function StockSum(bs: seq<Book>): (r: int)
    ensures (forall i | 0 <= i < |bs| :: bs[i].stok >= 0) ==> r >= 0
    ensures (forall i | 0 <= i < |bs| :: bs[i].stok == 0) ==> r == 0
  {
    if bs == [] then 0 else StockSum(bs[..|bs| - 1]) + bs[|bs| - 1].stok
  }

  /** `buku.filter(b => b.stok === 0)`: the sold-out books, each as often as in the collection. */
  function SoldOut(bs: seq<Book>): (r: seq<Book>)
    ensures |r| <= |bs|
    ensures forall b :: multiset(r)[b] == if b.stok == 0 then multiset(bs)[b] else 0
  {
    if bs == [] then []
    else
      var rest := SoldOut(bs[1..]);
      assert bs == [bs[0]] + bs[1..];
      (if bs[0].stok == 0 then [bs[0]] else []) + rest
  }

  /** "Buku Habis": the number of books with no stock. */
  function SoldOutCount(bs: seq<Book>): (r: nat)
    ensures r <= |bs|
    ensures r == 0 <==> forall i | 0 <= i < |bs| :: bs[i].stok != 0
  {
    |SoldOut(bs)|
  }

  /** Every sold-out book is in the collection with stock 0, and every book with stock 0
      is counted among the sold-out ones. */
  lemma SoldOutMembers(bs: seq<Book>, b: Book)
    ensures b in SoldOut(bs) <==> b in bs && b.stok == 0
  {
  }

  /** The statistics of the empty collection are all 0 (its length is 0 too). */
  lemma EmptyStats()
    ensures StockSum([]) == 0 && SoldOutCount([]) == 0
  {
  }

  /** The stock sum of a concatenation is the sum of the parts. */
  lemma {:induction false} StockSumAppend(xs: seq<Book>, ys: seq<Book>)
    ensures StockSum(xs + ys) == StockSum(xs) + StockSum(ys)
  {
    if ys == [] {
      assert xs + ys == xs;
    } else {
      var zs := xs + ys;
      assert zs[..|zs| - 1] == xs + ys[..|ys| - 1];
      StockSumAppend(xs, ys[..|ys| - 1]);
    }
  }

  /** The sold-out count of a concatenation is the sum of the parts. */
  lemma {:induction false} SoldOutCountAppend(xs: seq<Book>, ys: seq<Book>)
    ensures SoldOutCount(xs + ys) == SoldOutCount(xs) + SoldOutCount(ys)
  {
    if xs != [] {
      var zs := xs + ys;
      assert zs[0] == xs[0] && zs[1..] == xs[1..] + ys;
      SoldOutCountAppend(xs[1..], ys);
    } else {
      assert xs + ys == ys;
    }
  }

  /** With non-negative stock, the available stock is 0 exactly when every book is
      sold out, and it is never negative. */
  lemma {:induction false} NoStockIffAllSoldOut(bs: seq<Book>)
    requires forall i | 0 <= i < |bs| :: bs[i].stok >= 0
    ensures StockSum(bs) >= 0
    ensures StockSum(bs) == 0 <==> SoldOutCount(bs) == |bs|
  {
    if bs != [] {
      var init, last := bs[..|bs| - 1], bs[|bs| - 1];
      assert bs == init + [last];
      NoStockIffAllSoldOut(init);
      SoldOutCountAppend(init, [last]);
      assert SoldOut([last]) == (if last.stok == 0 then [last] else []);
    }
  }
}
