/** The category table of the Android app and its first-start seeding: when the table is
    empty, twelve built-in categories are inserted one by one, each receiving the next
    auto-generated id. */
module CategoryRepository {
  import opened Wrappers
  import opened Seqs
  import opened Converters

  /** The Kotlin `data.model.Category` record. `id == 0` asks the database for a fresh id. */
  datatype Category = Category(
    id: Long,
    name: string,
    color: string,
    icon: string,
    kind: TransactionType,
    isDefault: bool,
    createdAt: JDate,
    updatedAt: JDate)

  /** The errors an `@Insert` can raise. */
  datatype DbError = PrimaryKeyConstraint | DatabaseFull

  const MaxLong: int := 0x7FFF_FFFF_FFFF_FFFF

  /** `Category(name = …, color = …, icon = …, type = …, isDefault = true)`: the id keeps its
      default `0`, and `createdAt` and `updatedAt` keep theirs, `Date()`, which is read anew
      for each of the two. */
  function Seed(name: string, color: string, icon: string, kind: TransactionType,
                created: JDate, updated: JDate): Category {
    Category(0, name, color, icon, kind, true, created, updated)
  }

  /** The list `createDefaultCategories` inserts, in order. `clock(k)` is the `k`-th reading
      of `Date()` while the list is built: two per constructor call, `createdAt` first. */
  function DefaultCategories(clock: nat -> JDate): seq<Category> {
    [ Seed("Gaji", "#4CAF50", "\U{1F4B0}", INCOME, clock(0), clock(1)),
      Seed("Bonus", "#8BC34A", "\U{1F381}", INCOME, clock(2), clock(3)),
      Seed("Investasi", "#009688", "\U{1F4C8}", INCOME, clock(4), clock(5)),
      Seed("Lainnya", "#607D8B", "\U{1F4CA}", INCOME, clock(6), clock(7)),
      Seed("Makanan", "#F44336", "\U{1F37D}\U{FE0F}", EXPENSE, clock(8), clock(9)),
      Seed("Transport", "#FF9800", "\U{1F697}", EXPENSE, clock(10), clock(11)),
      Seed("Belanja", "#E91E63", "\U{1F6CD}\U{FE0F}", EXPENSE, clock(12), clock(13)),
      Seed("Hiburan", "#9C27B0", "\U{1F3AC}", EXPENSE, clock(14), clock(15)),
      Seed("Kesehatan", "#2196F3", "\U{1F48A}", EXPENSE, clock(16), clock(17)),
      Seed("Pendidikan", "#3F51B5", "\U{1F4DA}", EXPENSE, clock(18), clock(19)),
      Seed("Tagihan", "#795548", "\U{1F4C4}", EXPENSE, clock(20), clock(21)),
      Seed("Lainnya", "#9E9E9E", "\U{1F4CB}", EXPENSE, clock(22), clock(23)) ]
  }

  /** The rows that inserting `cs` in order after id `last` produces: the `i`-th gets id
      `last + 1 + i`. */
  function Numbered(cs: seq<Category>, last: int): (r: seq<Category>)
    requires 0 <= last && last + |cs| <= MaxLong
    ensures |r| == |cs|
    ensures forall i :: 0 <= i < |r| ==> r[i] == cs[i].(id := (last + 1 + i) as Long)
  {
    seq(|cs|, (i: int) requires 0 <= i < |cs| => cs[i].(id := (last + 1 + i) as Long))
  }

  lemma NumberedSnoc(cs: seq<Category>, c: Category, last: int)
    requires 0 <= last && last + |cs| + 1 <= MaxLong
    ensures Numbered(cs + [c], last) == Numbered(cs, last) + [c.(id := (last + 1 + |cs|) as Long)]
  {
  }

  function IsIncome(c: Category): bool {
    c.kind == INCOME
  }

  /** The built-in list: four income categories followed by eight expense categories, all
      marked default, all asking for a generated id; the `i`-th carries the clock readings
      `2 * i` and `2 * i + 1` of the constructor calls, in list order. */
  lemma DefaultCategoriesShape(clock: nat -> JDate)
    ensures |DefaultCategories(clock)| == 12
    ensures forall i :: 0 <= i < 12 ==>
              var c := DefaultCategories(clock)[i];
              c.id == 0 && c.isDefault && c.createdAt == clock(2 * i) && c.updatedAt == clock(2 * i + 1) &&
              (c.kind == INCOME <==> i < 4)
    ensures |Filter(DefaultCategories(clock), IsIncome)| == 4
  {
    var d := DefaultCategories(clock);
    assert forall i :: 0 <= i < 12 ==> (d[i].kind == INCOME <==> i < 4);
    IncomeFirst(d, 4);
  }

  /** A list whose first `n` entries are exactly its income entries has `n` of them. */
  lemma IncomeFirst(cs: seq<Category>, n: int)
    requires 0 <= n <= |cs|
    requires forall i :: 0 <= i < |cs| ==> (cs[i].kind == INCOME <==> i < n)
    ensures |Filter(cs, IsIncome)| == n
  {
    assert Filter(cs[n..], IsIncome) == [] by {
      FilterNone(cs[n..], IsIncome);
    }
    assert Filter(cs[..n], IsIncome) == cs[..n] by {
      FilterAll(cs[..n], IsIncome);
    }
    assert cs == cs[..n] + cs[n..];
    FilterAppend(cs[..n], cs[n..], IsIncome);
  }

  /** The name "Lainnya" ("other") occurs twice, once of each kind, last in each group. */
  lemma OtherTwice(clock: nat -> JDate)
    ensures forall i :: 0 <= i < |DefaultCategories(clock)| ==>
              (DefaultCategories(clock)[i].name == "Lainnya" <==> i == 3 || i == 11)
    ensures DefaultCategories(clock)[3].kind == INCOME && DefaultCategories(clock)[11].kind == EXPENSE
  {
    var d := DefaultCategories(clock);
    forall i | 0 <= i < |d| ensures d[i].name == "Lainnya" <==> i == 3 || i == 11 {
      if i != 3 && i != 11 {
        assert d[i].name[0] != 'L';
      }
    }
  }

  /** The `categories` table. `lastId` is the largest id ever handed out (SQLite's
      `AUTOINCREMENT` counter), so generated ids are never reused. */
  class CategoryTable {
    var rows: seq<Category>
    var lastId: int

    ghost predicate Valid()
      reads this
    {
      0 <= lastId <= MaxLong &&
      (forall i :: 0 <= i < |rows| ==> rows[i].id as int <= lastId) &&
      (forall i, j :: 0 <= i < j < |rows| ==> rows[i].id != rows[j].id)
    }

    constructor()
      ensures Valid() && rows == [] && lastId == 0
    {
      rows := [];
      lastId := 0;
    }

    /** `insertCategory`: an id of `0` is replaced by the next generated one; an explicit id
        already in the table violates the primary key; the generated id cannot pass the
        largest `Long`. */
    method InsertCategory(category: Category) returns (r: Result<Long, DbError>)
      requires Valid()
      modifies this
      ensures Valid()
      ensures category.id == 0 && old(lastId) < MaxLong ==>
                r == Ok((old(lastId) + 1) as Long) &&
                rows == old(rows) + [category.(id := r.value)] && lastId == old(lastId) + 1
      ensures category.id == 0 && old(lastId) == MaxLong ==>
                r == Err(DatabaseFull) && rows == old(rows) && lastId == old(lastId)
      ensures category.id != 0 && (exists i :: 0 <= i < |old(rows)| && old(rows)[i].id == category.id) ==>
                r == Err(PrimaryKeyConstraint) && rows == old(rows) && lastId == old(lastId)
      ensures category.id != 0 && (forall i :: 0 <= i < |old(rows)| ==> old(rows)[i].id != category.id) ==>
                r == Ok(category.id) && rows == old(rows) + [category] &&
                lastId == if category.id as int > old(lastId) then category.id as int else old(lastId)
    {
      if category.id == 0 {
        if lastId == MaxLong {
          return Err(DatabaseFull);
        }
        lastId := lastId + 1;
        var row := category.(id := lastId as Long);
        rows := rows + [row];
        r := Ok(row.id);
      } else {
        if exists i :: 0 <= i < |rows| && rows[i].id == category.id {
          return Err(PrimaryKeyConstraint);
        }
        rows := rows + [category];
        if category.id as int > lastId {
          lastId := category.id as int;
        }
        r := Ok(category.id);
      }
    }

    /** `createDefaultCategories`: insert the built-in list one category at a time; an insert
        that throws ends the loop. */
    method CreateDefaultCategories(clock: nat -> JDate) returns (r: Result<(), DbError>)
      requires Valid()
      modifies this
      ensures Valid()
      ensures old(lastId) + 12 <= MaxLong ==>
                r == Ok(()) && lastId == old(lastId) + 12 &&
                rows == old(rows) + Numbered(DefaultCategories(clock), old(lastId))
      ensures old(lastId) + 12 > MaxLong ==>
                r == Err(DatabaseFull) && lastId == MaxLong &&
                rows == old(rows) + Numbered(DefaultCategories(clock)[..MaxLong - old(lastId)], old(lastId))
    {
      DefaultCategoriesShape(clock);
      r := InsertEach(DefaultCategories(clock));
    }

    /** The `forEach` of `createDefaultCategories`: `insertCategory` on each of `cs` in
        order, where every one asks for a generated id. */
    method InsertEach(cs: seq<Category>) returns (r: Result<(), DbError>)
      requires Valid()
      requires forall i :: 0 <= i < |cs| ==> cs[i].id == 0
      modifies this
      ensures Valid()
      ensures old(lastId) + |cs| <= MaxLong ==>
                r == Ok(()) && lastId == old(lastId) + |cs| && rows == old(rows) + Numbered(cs, old(lastId))
      ensures old(lastId) + |cs| > MaxLong ==>
                r == Err(DatabaseFull) && lastId == MaxLong &&
                rows == old(rows) + Numbered(cs[..MaxLong - old(lastId)], old(lastId))
    {
      var i := 0;
      while i < |cs|
        invariant 0 <= i <= |cs|
        invariant Valid()
        invariant lastId == old(lastId) + i
        invariant rows == old(rows) + Numbered(cs[..i], old(lastId))
      {
        var id := InsertCategory(cs[i]);
        if id.Err? {
          return Err(id.error);
        }
        NumberedSnoc(cs[..i], cs[i], old(lastId));
        assert cs[..i + 1] == cs[..i] + [cs[i]];
        i := i + 1;
      }
      assert cs[..i] == cs;
      r := Ok(());
    }

    /** `createDefaultCategoriesIfNeeded`: seed only a table with no rows at all. */
    method CreateDefaultCategoriesIfNeeded(clock: nat -> JDate) returns (r: Result<(), DbError>)
      requires Valid()
      modifies this
      ensures Valid()
      ensures old(rows) != [] ==> r == Ok(()) && rows == old(rows) && lastId == old(lastId)
      ensures old(rows) == [] && old(lastId) + 12 <= MaxLong ==>
                r == Ok(()) && lastId == old(lastId) + 12 &&
                rows == Numbered(DefaultCategories(clock), old(lastId))
      ensures old(rows) == [] && old(lastId) + 12 > MaxLong ==>
                r == Err(DatabaseFull) && lastId == MaxLong &&
                rows == Numbered(DefaultCategories(clock)[..MaxLong - old(lastId)], old(lastId))
    {
      if rows == [] {
        r := CreateDefaultCategories(clock);
      } else {
        r := Ok(());
      }
    }
  }

  /** A seeded table: twelve rows with consecutive fresh ids, all default, four of them income. */
  lemma SeededTable(clock: nat -> JDate, last: int)
    requires 0 <= last && last + 12 <= MaxLong
    ensures var rows := Numbered(DefaultCategories(clock), last);
            |rows| == 12 &&
            (forall i :: 0 <= i < 12 ==> rows[i].id as int == last + 1 + i && rows[i].isDefault) &&
            (forall i, j :: 0 <= i < j < 12 ==> rows[i].id != rows[j].id) &&
            |Filter(rows, IsIncome)| == 4
  {
    DefaultCategoriesShape(clock);
    var d := DefaultCategories(clock);
    var rows := Numbered(d, last);
    FilterExt(rows, IsIncome, (c: Category) => c.kind == INCOME);
    assert forall i :: 0 <= i < 12 ==> IsIncome(rows[i]) == IsIncome(d[i]);
    FilterSameMask(rows, d, IsIncome);
  }

  /** Two sequences that `p` accepts at the same positions have equally long filters. */
  lemma {:induction false} FilterSameMask<T>(a: seq<T>, b: seq<T>, p: T -> bool)
    requires |a| == |b|
    requires forall i :: 0 <= i < |a| ==> p(a[i]) == p(b[i])
    ensures |Filter(a, p)| == |Filter(b, p)|
  {
    if a != [] {
      FilterSameMask(a[1..], b[1..], p);
    }
  }

  /** Starting the app twice on a fresh install seeds once: the second call finds rows. */
  method StartTwice(table: CategoryTable, clock1: nat -> JDate, clock2: nat -> JDate) returns (r1: Result<(), DbError>, r2: Result<(), DbError>)
    requires table.Valid() && table.rows == [] && table.lastId == 0
    modifies table
    ensures r1 == Ok(()) && r2 == Ok(())
    ensures table.rows == Numbered(DefaultCategories(clock1), 0)
  {
    r1 := table.CreateDefaultCategoriesIfNeeded(clock1);
    DefaultCategoriesShape(clock1);
    r2 := table.CreateDefaultCategoriesIfNeeded(clock2);
  }
}
