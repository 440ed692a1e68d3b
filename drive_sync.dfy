/** The list logic of the Google Drive service of the Android app. The Drive keeps one
    `transactions.json` file inside a `ZeinFlow` folder; a sync copies that list, replaces
    the entry with the same id or appends, and writes the list back; a delete filters the
    id out; a read treats an empty or `null` file as the empty list. */
module DriveSync {
  import opened Wrappers
  import opened Seqs
  import opened Converters
  import SeqSums

  /** The Kotlin `data.model.Transaction` record. Its amount is a `Double`, modelled as an
      integer number of rupiah. */
  datatype Transaction = Transaction(
    id: Long,
    amount: int,
    description: string,
    kind: TransactionType,
    categoryId: Long,
    date: JDate,
    createdAt: JDate,
    updatedAt: JDate)

  function HasId(id: Long): Transaction -> bool {
    (t: Transaction) => t.id == id
  }

  function OtherId(id: Long): Transaction -> bool {
    (t: Transaction) => t.id != id
  }

  /** The list a sync writes: the first entry whose id equals `transaction.id` is replaced
      by `transaction`; with no such entry, `transaction` is appended. */
  function Upserted(existing: seq<Transaction>, transaction: Transaction): (r: seq<Transaction>)
    ensures transaction in r
    ensures (forall j :: 0 <= j < |existing| ==> existing[j].id != transaction.id) ==>
              r == existing + [transaction]
    ensures (exists j :: 0 <= j < |existing| && existing[j].id == transaction.id) ==>
              |r| == |existing| &&
              exists i :: 0 <= i < |existing| && existing[i].id == transaction.id &&
                (forall j :: 0 <= j < i ==> existing[j].id != transaction.id) &&
                r[i] == transaction &&
                (forall j :: 0 <= j < |existing| && j != i ==> r[j] == existing[j])
    ensures Filter(r, OtherId(transaction.id)) == Filter(existing, OtherId(transaction.id))
  {
    var i := SeqSums.IndexWhere(existing, HasId(transaction.id));
    if i != -1 then
      FilterReplace(existing, i, transaction, OtherId(transaction.id));
      var r := existing[i := transaction];
      assert r[i] == transaction;
      r
    else
      FilterAppend(existing, [transaction], OtherId(transaction.id));
      existing + [transaction]
  }

  /** Replacing an element that `p` rejects by another that `p` rejects leaves the filter as it was. */
  lemma FilterReplace<T>(s: seq<T>, i: int, x: T, p: T -> bool)
    requires 0 <= i < |s| && !p(s[i]) && !p(x)
    ensures Filter(s[i := x], p) == Filter(s, p)
  {
    assert s == s[..i] + [s[i]] + s[i + 1..];
    assert s[i := x] == s[..i] + [x] + s[i + 1..];
    FilterAppend(s[..i] + [s[i]], s[i + 1..], p);
    FilterAppend(s[..i], [s[i]], p);
    FilterAppend(s[..i] + [x], s[i + 1..], p);
    FilterAppend(s[..i], [x], p);
  }

  /** The list a delete writes: every entry with id `transactionId` is dropped. */
  function Deleted(existing: seq<Transaction>, transactionId: Long): (r: seq<Transaction>)
    ensures forall t :: t in r <==> t in existing && t.id != transactionId
    ensures IsSubsequence(r, existing)
    ensures forall t :: multiset(r)[t] == if t.id != transactionId then multiset(existing)[t] else 0
  {
    FilterMembers(existing, OtherId(transactionId));
    FilterIsSubsequence(existing, OtherId(transactionId));
    FilterCount(existing, OtherId(transactionId));
    Filter(existing, OtherId(transactionId))
  }

  /** Deleting an id that no entry has leaves the list as it was, and deleting twice is
      deleting once. */
  lemma DeletedAbsentAndTwice(existing: seq<Transaction>, transactionId: Long)
    ensures (forall j :: 0 <= j < |existing| ==> existing[j].id != transactionId) ==>
              Deleted(existing, transactionId) == existing
    ensures Deleted(Deleted(existing, transactionId), transactionId) == Deleted(existing, transactionId)
  {
    if forall j :: 0 <= j < |existing| ==> existing[j].id != transactionId {
      FilterAll(existing, OtherId(transactionId));
    }
    var r := Deleted(existing, transactionId);
    FilterAll(r, OtherId(transactionId));
  }

  /** A delete after a sync of the same id gives what a delete alone gives: the sync
      touches no entry with another id. */
  lemma DeleteUndoesUpsert(existing: seq<Transaction>, transaction: Transaction)
    ensures Deleted(Upserted(existing, transaction), transaction.id) == Deleted(existing, transaction.id)
  {
  }

  /** A sync after a delete of the same id appends. */
  lemma UpsertAfterDelete(existing: seq<Transaction>, transaction: Transaction)
    ensures Upserted(Deleted(existing, transaction.id), transaction) ==
            Deleted(existing, transaction.id) + [transaction]
  {
    var d := Deleted(existing, transaction.id);
    forall j | 0 <= j < |d| ensures d[j].id != transaction.id {
      assert d[j] in d;
    }
  }

  /** Syncing the same transaction twice writes the same list as syncing it once. */
  lemma UpsertIdempotent(existing: seq<Transaction>, transaction: Transaction)
    ensures Upserted(Upserted(existing, transaction), transaction) == Upserted(existing, transaction)
  {
    var p := HasId(transaction.id);
    var once := Upserted(existing, transaction);
    var i := SeqSums.IndexWhere(existing, p);
    if i != -1 {
      assert once == existing[i := transaction];
      assert forall j :: 0 <= j < i ==> once[j] == existing[j];
      assert SeqSums.IndexWhere(once, p) == i;
      assert once[i := transaction] == once;
    } else {
      assert once == existing + [transaction];
      assert forall j :: 0 <= j < |existing| ==> !p(once[j]);
      assert SeqSums.IndexWhere(once, p) == |existing|;
      assert once[|existing| := transaction] == once;
    }
  }

  /** What `transactions.json` holds: no text at all, text that Gson reads as `null`, a JSON
      list of transactions, or text that Gson cannot read. */
  datatype FileContent = Blank | JsonNull | JsonList(items: seq<Transaction>) | Malformed

  /** The failures a Drive call surfaces as exceptions. */
  datatype DriveError = RequestFailed | JsonSyntaxError

  /** `getTransactionsFromFile` once the text is downloaded: an empty text and a `null` result
      both give the empty list; malformed text throws. */
  function ReadTransactions(content: FileContent): (r: Result<seq<Transaction>, DriveError>)
    ensures r.Err? <==> content.Malformed?
    ensures content.Blank? || content.JsonNull? ==> r == Ok([])
    ensures content.JsonList? ==> r == Ok(content.items)
  {
    match content
    case Blank => Ok([])
    case JsonNull => Ok([])
    case JsonList(items) => Ok(items)
    case Malformed => Err(JsonSyntaxError)
  }

  /** The file a get-or-create yields: the existing one, or a new one holding `[]`. */
  function FileOrCreated(file: Option<FileContent>): (r: FileContent)
    ensures file.None? ==> ReadTransactions(r) == Ok([])
    ensures file.Some? ==> r == file.value
  {
    match file
    case None => JsonList([])
    case Some(c) => c
  }

  /** The user's Drive as the service sees it. `reachable` is false when requests fail (no
      network, a revoked token); then the first `execute()` of every operation throws. */
  class DriveStore {
    const reachable: bool
    var folder: bool
    var file: Option<FileContent>

    /** A `transactions.json` file only exists inside the folder. */
    ghost predicate Valid()
      reads this
    {
      !folder ==> file.None?
    }

    constructor(reachable: bool, folder: bool, file: Option<FileContent>)
      requires !folder ==> file.None?
      ensures this.reachable == reachable && this.folder == folder && this.file == file
      ensures Valid()
    {
      this.reachable := reachable;
      this.folder := folder;
      this.file := file;
    }

    /** `getOrCreateAppFolder`: find the folder, or create it. */
    method GetOrCreateAppFolder()
      requires Valid() && reachable
      modifies this
      ensures Valid() && folder && file == old(file)
    {
      if !folder {
        folder := true;
      }
    }

    /** `getOrCreateTransactionsFile`: find the file in the folder, or create it holding `[]`. */
    method GetOrCreateTransactionsFile()
      requires Valid() && reachable && folder
      modifies this
      ensures Valid() && folder && file == Some(FileOrCreated(old(file)))
    {
      if file.None? {
        file := Some(JsonList([]));
      }
    }

    /** `writeTransactionsToFile`: replace the file's content by the serialised list. */
    method WriteTransactionsToFile(transactions: seq<Transaction>)
      requires Valid() && reachable && folder && file.Some?
      modifies this
      ensures Valid() && folder && file == Some(JsonList(transactions))
    {
      file := Some(JsonList(transactions));
    }

    /** `syncTransactionToDrive`: read the list, upsert, write it back; failures are rethrown. */
    method SyncTransactionToDrive(transaction: Transaction) returns (r: Result<(), DriveError>)
      requires Valid()
      modifies this
      ensures Valid()
      ensures !reachable ==> r == Err(RequestFailed) && folder == old(folder) && file == old(file)
      ensures reachable ==> folder
      ensures reachable && ReadTransactions(FileOrCreated(old(file))).Err? ==>
                r == Err(JsonSyntaxError) && file == Some(FileOrCreated(old(file)))
      ensures reachable && ReadTransactions(FileOrCreated(old(file))).Ok? ==>
                r == Ok(()) &&
                file == Some(JsonList(Upserted(ReadTransactions(FileOrCreated(old(file))).value, transaction)))
    {
      if !reachable {
        return Err(RequestFailed);
      }
      GetOrCreateAppFolder();
      GetOrCreateTransactionsFile();
      var existing := ReadTransactions(file.value);
      if existing.Err? {
        return Err(existing.error);
      }
      WriteTransactionsToFile(Upserted(existing.value, transaction));
      r := Ok(());
    }

    /** `deleteTransactionFromDrive`: read the list, drop the id, write it back. */
    method DeleteTransactionFromDrive(transactionId: Long) returns (r: Result<(), DriveError>)
      requires Valid()
      modifies this
      ensures Valid()
      ensures !reachable ==> r == Err(RequestFailed) && folder == old(folder) && file == old(file)
      ensures reachable ==> folder
      ensures reachable && ReadTransactions(FileOrCreated(old(file))).Err? ==>
                r == Err(JsonSyntaxError) && file == Some(FileOrCreated(old(file)))
      ensures reachable && ReadTransactions(FileOrCreated(old(file))).Ok? ==>
                r == Ok(()) &&
                file == Some(JsonList(Deleted(ReadTransactions(FileOrCreated(old(file))).value, transactionId)))
    {
      if !reachable {
        return Err(RequestFailed);
      }
      GetOrCreateAppFolder();
      GetOrCreateTransactionsFile();
      var existing := ReadTransactions(file.value);
      if existing.Err? {
        return Err(existing.error);
      }
      WriteTransactionsToFile(Deleted(existing.value, transactionId));
      r := Ok(());
    }

    /** `getTransactionsFromDrive`: every failure is swallowed into the empty list. */
    method GetTransactionsFromDrive() returns (transactions: seq<Transaction>)
      requires Valid()
      modifies this
      ensures Valid()
      ensures !reachable ==> transactions == [] && folder == old(folder) && file == old(file)
      ensures reachable ==> folder && file == Some(FileOrCreated(old(file)))
      ensures reachable ==>
                transactions == match ReadTransactions(FileOrCreated(old(file)))
                                case Ok(xs) => xs
                                case Err(_) => []
    {
      if !reachable {
        return [];
      }
      GetOrCreateAppFolder();
      GetOrCreateTransactionsFile();
      var read := ReadTransactions(file.value);
      transactions := if read.Ok? then read.value else [];
    }
  }

  /** A successful sync is seen by the next read: the list read back holds the transaction,
      and every entry with another id is the one that was there before. */
  method SyncThenRead(drive: DriveStore, transaction: Transaction) returns (r: Result<(), DriveError>, read: seq<Transaction>)
    requires drive.Valid()
    modifies drive
    ensures r.Ok? ==> transaction in read
    ensures r.Ok? ==>
              ReadTransactions(FileOrCreated(old(drive.file))).Ok? &&
              Filter(read, OtherId(transaction.id)) ==
              Filter(ReadTransactions(FileOrCreated(old(drive.file))).value, OtherId(transaction.id))
    ensures !drive.reachable ==> r.Err? && read == []
  {
    r := drive.SyncTransactionToDrive(transaction);
    read := drive.GetTransactionsFromDrive();
  }
}
