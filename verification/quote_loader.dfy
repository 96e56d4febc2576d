/**
 * Loading the quote collection: every regular file directly inside a
 * folder is parsed as a fortune file and the quotes are concatenated.
 * The file system and the fortune-file parser are inputs: a folder is
 * described by what `is_dir`, `read_dir` and the per-file parse return.
 */
module QuoteLoader {
  import opened Wrappers

  /** The `std::io::ErrorKind` values the loader distinguishes. */
  datatype ErrorKind = NotFound | OtherKind(name: string)

  /** The `std::io::Error`s the loader can return. */
  datatype IoError =
    | FortuneParseFailed(path: string)
    | FolderNotFound(path: string)
    | SystemError(kind: ErrorKind)

  function Kind(e: IoError): ErrorKind {
    match e
    case FortuneParseFailed(_) => NotFound
    case FolderNotFound(_) => NotFound
    case SystemError(k) => k
  }

  /** Why the fortune-file parser rejected a file. */
  datatype ParseFailure = ParseFailure(reason: string)

  /** A directory entry, with what parsing it as a fortune file would give. */
  datatype Entry = Entry(path: string, isFile: bool, parsed: Result<seq<string>, ParseFailure>)

  /**
   * A folder path as the loader sees it: whether it is a directory, and
   * what listing it yields (opening the listing and each entry may fail).
   */
  datatype Folder = Folder(path: string, isDir: bool, listing: Result<seq<Result<Entry, ErrorKind>>, ErrorKind>)

  /** `load_from_file`: any parse failure becomes a NotFound error naming the path. */
  function LoadFromFile(path: string, parsed: Result<seq<string>, ParseFailure>): (r: Result<seq<string>, IoError>)
    ensures r.Ok? <==> parsed.Ok?
    ensures r.Ok? ==> r.value == parsed.value
    ensures r.Err? ==> Kind(r.error) == NotFound && r.error == FortuneParseFailed(path)
  {
    match parsed
    case Ok(quotes) => Ok(quotes)
    case Err(_) => Err(FortuneParseFailed(path))
  }

  /** The error an entry stops the scan with, if any. */
  function EntryFailure(item: Result<Entry, ErrorKind>): Option<IoError> {
    match item
    case Err(kind) => Some(SystemError(kind))
    case Ok(entry) =>
      if entry.isFile && entry.parsed.Err? then Some(FortuneParseFailed(entry.path)) else None
  }

  /** The quotes an entry contributes when it does not fail. */
  function EntryQuotes(item: Result<Entry, ErrorKind>): seq<string>
    requires EntryFailure(item).None?
  {
    if item.value.isFile then item.value.parsed.value else []
  }

  function Flatten(lists: seq<seq<string>>): seq<string> {
    if |lists| == 0 then [] else lists[0] + Flatten(lists[1..])
  }

  function TotalLength(lists: seq<seq<string>>): nat {
    if |lists| == 0 then 0 else |lists[0]| + TotalLength(lists[1..])
  }

  /** The per-file quote lists of the regular files, in listing order. */
  function FileQuoteLists(items: seq<Result<Entry, ErrorKind>>): seq<seq<string>>
    requires forall i :: 0 <= i < |items| ==> EntryFailure(items[i]).None?
  {
    if |items| == 0 then []
    else
      var quotes := EntryQuotes(items[0]);
      if items[0].value.isFile then [quotes] + FileQuoteLists(items[1..])
      else FileQuoteLists(items[1..])
  }

  /** The reference meaning of scanning a listing: a right fold over the entries. */
  ghost function Aggregate(items: seq<Result<Entry, ErrorKind>>): Result<seq<string>, IoError> {
    if |items| == 0 then Ok([])
    else match EntryFailure(items[0])
      case Some(e) => Err(e)
      case None =>
        match Aggregate(items[1..])
        case Ok(rest) => Ok(EntryQuotes(items[0]) + rest)
        case Err(e) => Err(e)
  }

  /** The reference meaning of `load_from_folder`. */
  ghost function FolderLoad(folder: Folder): Result<seq<string>, IoError> {
    if !folder.isDir then Err(FolderNotFound(folder.path))
    else match folder.listing
      case Err(kind) => Err(SystemError(kind))
      case Ok(items) => Aggregate(items)
  }

  /** Unfolds `Aggregate` once on a list written as head and tail. */
  lemma AggregateCons(item: Result<Entry, ErrorKind>, rest: seq<Result<Entry, ErrorKind>>)
    ensures Aggregate([item] + rest) ==
              match EntryFailure(item)
              case Some(e) => Err(e)
              case None =>
                match Aggregate(rest)
                case Ok(quotes) => Ok(EntryQuotes(item) + quotes)
                case Err(e) => Err(e)
  {
    assert ([item] + rest)[0] == item;
    assert ([item] + rest)[1..] == rest;
  }

  /** Scanning one more entry after a successful scan. */
  lemma {:induction false} AggregateAppend(items: seq<Result<Entry, ErrorKind>>, item: Result<Entry, ErrorKind>)
    requires Aggregate(items).Ok?
    ensures Aggregate(items + [item]) ==
              match EntryFailure(item)
              case Some(e) => Err(e)
              case None => Ok(Aggregate(items).value + EntryQuotes(item))
  {
    if |items| == 0 {
      assert items + [item] == [item] + [];
      AggregateCons(item, []);
      if EntryFailure(item).None? {
        assert EntryQuotes(item) + [] == [] + EntryQuotes(item);
      }
    } else {
      assert (items + [item])[0] == items[0];
      assert (items + [item])[1..] == items[1..] + [item];
      AggregateAppend(items[1..], item);
      if EntryFailure(item).None? {
        assert EntryQuotes(items[0]) + (Aggregate(items[1..]).value + EntryQuotes(item))
            == (EntryQuotes(items[0]) + Aggregate(items[1..]).value) + EntryQuotes(item);
      }
    }
  }

  /** Once the scan has failed, later entries change nothing. */
  lemma {:induction false} AggregateStopsAtFailure(items: seq<Result<Entry, ErrorKind>>, rest: seq<Result<Entry, ErrorKind>>)
    requires Aggregate(items).Err?
    ensures Aggregate(items + rest) == Aggregate(items)
  {
    assert (items + rest)[0] == items[0];
    if EntryFailure(items[0]).None? {
      assert (items + rest)[1..] == items[1..] + rest;
      AggregateStopsAtFailure(items[1..], rest);
    }
  }

  /** `load_from_folder`. */
  method LoadFromFolder(folder: Folder) returns (r: Result<seq<string>, IoError>)
    ensures r == FolderLoad(folder)
  {
    if !folder.isDir {
      return Err(FolderNotFound(folder.path));
    }
    if folder.listing.Err? {
      return Err(SystemError(folder.listing.error));
    }
    var items := folder.listing.value;
    var all: seq<string> := [];
    var i := 0;
    while i < |items|
      invariant 0 <= i <= |items|
      invariant Aggregate(items[..i]) == Ok(all)
    {
      var item := items[i];
      AggregateAppend(items[..i], item);
      assert items[..i + 1] == items[..i] + [item];
      if item.Err? {
        AggregateStopsAtFailure(items[..i + 1], items[i + 1..]);
        assert items[..i + 1] + items[i + 1..] == items;
        return Err(SystemError(item.error));
      }
      var entry := item.value;
      if entry.isFile {
        var loaded := LoadFromFile(entry.path, entry.parsed);
        if loaded.Err? {
          AggregateStopsAtFailure(items[..i + 1], items[i + 1..]);
          assert items[..i + 1] + items[i + 1..] == items;
          return Err(loaded.error);
        }
        all := all + loaded.value;
      } else {
        assert all + EntryQuotes(item) == all;
      }
      i := i + 1;
    }
    assert items[..i] == items;
    return Ok(all);
  }

  /** A scan succeeds exactly when no entry fails. */
  lemma {:induction false} AggregateOkIff(items: seq<Result<Entry, ErrorKind>>)
    ensures Aggregate(items).Ok? <==> forall i :: 0 <= i < |items| ==> EntryFailure(items[i]).None?
  {
    if |items| > 0 {
      AggregateOkIff(items[1..]);
      assert forall i :: 1 <= i < |items| ==> items[i] == items[1..][i - 1];
    }
  }

  /** A successful scan yields the regular files' quotes concatenated in listing order. */
  lemma {:induction false} AggregateConcatenates(items: seq<Result<Entry, ErrorKind>>)
    requires forall i :: 0 <= i < |items| ==> EntryFailure(items[i]).None?
    ensures Aggregate(items) == Ok(Flatten(FileQuoteLists(items)))
  {
    if |items| > 0 {
      assert EntryFailure(items[0]).None?;
      assert forall i :: 0 <= i < |items[1..]| ==> items[1..][i] == items[i + 1];
      AggregateConcatenates(items[1..]);
      assert items == [items[0]] + items[1..];
      AggregateCons(items[0], items[1..]);
      if items[0].value.isFile {
        var lists := FileQuoteLists(items);
        assert lists == [EntryQuotes(items[0])] + FileQuoteLists(items[1..]);
        assert lists[1..] == FileQuoteLists(items[1..]);
      } else {
        assert FileQuoteLists(items) == FileQuoteLists(items[1..]);
        assert EntryQuotes(items[0]) + Flatten(FileQuoteLists(items[1..])) == Flatten(FileQuoteLists(items[1..]));
      }
    }
  }

  /** A failed scan reports the first failing entry. */
  lemma {:induction false} AggregateFirstFailure(items: seq<Result<Entry, ErrorKind>>)
    requires Aggregate(items).Err?
    ensures exists k :: 0 <= k < |items| && EntryFailure(items[k]) == Some(Aggregate(items).error)
                        && forall j :: 0 <= j < k ==> EntryFailure(items[j]).None?
  {
    if EntryFailure(items[0]).Some? {
      assert EntryFailure(items[0]) == Some(Aggregate(items).error);
    } else {
      AggregateFirstFailure(items[1..]);
      var k :| 0 <= k < |items[1..]| && EntryFailure(items[1..][k]) == Some(Aggregate(items[1..]).error)
                && forall j :: 0 <= j < k ==> EntryFailure(items[1..][j]).None?;
      assert EntryFailure(items[k + 1]) == Some(Aggregate(items).error);
      assert forall j :: 1 <= j < k + 1 ==> items[j] == items[1..][j - 1];
    }
  }

  /** The number of quotes loaded is the sum of the per-file counts. */
  lemma {:induction false} FlattenLength(lists: seq<seq<string>>)
    ensures |Flatten(lists)| == TotalLength(lists)
  {
    if |lists| > 0 {
      FlattenLength(lists[1..]);
    }
  }

  /** Entries that are not regular files contribute nothing and never fail. */
  lemma SkipsNonFiles(before: seq<Result<Entry, ErrorKind>>, other: Entry, after: seq<Result<Entry, ErrorKind>>)
    requires !other.isFile
    ensures Aggregate(before + [Ok(other)] + after) == Aggregate(before + after)
  {
    if |before| == 0 {
      assert before + [Ok(other)] + after == [Ok(other)] + after;
      AggregateCons(Ok(other), after);
      assert before + after == after;
      match Aggregate(after)
      case Ok(quotes) => assert EntryQuotes(Ok(other)) + quotes == quotes;
      case Err(_) =>
    } else {
      assert (before + [Ok(other)] + after)[0] == before[0];
      assert (before + after)[0] == before[0];
      assert (before + [Ok(other)] + after)[1..] == before[1..] + [Ok(other)] + after;
      assert (before + after)[1..] == before[1..] + after;
      SkipsNonFiles(before[1..], other, after);
    }
  }

  /** Two files of two quotes each give four quotes. */
  lemma TwoFilesOfTwo(a: Entry, b: Entry)
    requires a.isFile && b.isFile && a.parsed.Ok? && b.parsed.Ok?
    requires |a.parsed.value| == 2 && |b.parsed.value| == 2
    ensures var r := Aggregate([Ok(a), Ok(b)]); r.Ok? && |r.value| == 4
  {
    var items: seq<Result<Entry, ErrorKind>> := [Ok(a), Ok(b)];
    AggregateConcatenates(items);
    assert items[1..] == [Ok(b)];
    assert |items[1..][1..]| == 0;
    assert FileQuoteLists(items[1..]) == [b.parsed.value];
    assert FileQuoteLists(items) == [a.parsed.value, b.parsed.value];
    var lists := [a.parsed.value, b.parsed.value];
    FlattenLength(lists);
    assert lists[1..] == [b.parsed.value];
    assert TotalLength(lists[1..]) == 2 + TotalLength([]);
  }

  /** An empty directory gives no quotes and no error. */
  lemma EmptyFolder(path: string)
    ensures FolderLoad(Folder(path, true, Ok([]))) == Ok([])
  {
  }

  /** A path that is not a directory fails with a NotFound error, whatever a listing would hold. */
  lemma MissingFolderFails(path: string, listing: Result<seq<Result<Entry, ErrorKind>>, ErrorKind>)
    ensures var r := FolderLoad(Folder(path, false, listing));
            r == Err(FolderNotFound(path)) && Kind(r.error) == NotFound
  {
  }
}
