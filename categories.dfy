/** The category record, its draft form and the statistics the category page shows. */
module Categories {
  import opened Js
  import opened Api

  /** A category as the server returns it. */
  datatype Category = Category(id: Id, nama: string)

  /** The keys of the category draft form. */
  const CategoryFields: set<string> := {"nama"}

  const LoadFailedText := "Gagal memuat data kategori."
  const UpdatedText := "Kategori berhasil diperbarui!"
  const CreatedText := "Kategori berhasil ditambahkan!"
  const SaveFailedText := "Gagal menyimpan kategori. Coba lagi."
  const DeletedText := "Kategori berhasil dihapus!"
  const DeleteFailedText := "Gagal menghapus kategori."

  /** The initial and the reset draft: `{ nama: '' }`. */
  function EmptyDraft(): (d: Body)
    ensures d.Keys == CategoryFields && d["nama"] == ""
  {
    map["nama" := ""]
  }

  /** The draft `handleEdit` builds: `{ nama: k.nama }`, the id left out. */
  function EditDraft(k: Category): (d: Body)
    ensures d.Keys == CategoryFields && d["nama"] == k.nama
  {
    map["nama" := k.nama]
  }

  /** The three cards: "Total Kategori", "Kategori Aktif" and the fixed
      "Digunakan di Buku". */
  datatype CategoryStats = CategoryStats(total: nat, active: nat, usedInBooks: nat)

  /** Both counting cards show the collection's length; the third is a literal 0. */
  function Stats(ks: seq<Category>): CategoryStats
  {
    CategoryStats(|ks|, |ks|, 0)
  }
}
