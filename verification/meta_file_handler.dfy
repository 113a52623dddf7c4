/**
 * The subject metadata service (utils/meta_file_handler.py). A metadata
 * file is a list of subject records, each with a Zooniverse `subjectId`
 * and a `data` dictionary (`#sol_standard`, `startDate`, `endDate`, image
 * geometry keys, ...). Every query is a filter or lookup over that list.
 *
 * Python's exceptions are modelled explicitly: a lookup either yields a
 * value or raises one of the errors below, a list comprehension raises the
 * first error met in evaluation order, and each query turns that error into
 * what its `except` clause returns. An `except` clause without a `return`
 * makes the query return None.
 */
module MetaFileHandler {
  import opened Wrappers
  import Unique

  /** The scalar JSON values found in a metadata record. */
  datatype Json = JNull | JBool(b: bool) | JNum(n: real) | JStr(s: string)

  type Metadata = map<string, Json>

  /** One element of the metadata file. */
  datatype Subject = Subject(subjectId: int, data: Metadata)

  /** A date and time, as its position on the time line. */
  type Instant = int

  /**
   * `datetime.fromisoformat`: `Some` instant for a well-formed date string,
   * `None` where it raises ValueError. The model takes it as a parameter.
   */
  type DateParser = string -> Option<Instant>

  /** A value read from a record: the raw JSON value, or a parsed date for the two date keys. */
  datatype KeyValue = Plain(value: Json) | Date(at: Instant)

  datatype Error = KeyError | ValueError | TypeError | IndexError

  /** The outcome of evaluating a Python expression: a value or the exception it raises. */
  datatype Eval<T> = Done(value: T) | Raised(error: Error)

  /**
   * What a query returns: a value, the empty array that its `except`
   * clause returns, or None where the `except` clause has no `return`.
   * `Value([])` and `EmptyArray` stand for the same empty numpy array; the
   * two are kept apart only to record which path produced it.
   */
  datatype Reply<T> = Value(value: T) | EmptyArray | NoneReply

  const SolStandardKey := "#sol_standard"
  const StartDateKey := "startDate"
  const EndDateKey := "endDate"

  // ---------------------------------------------------------------------
  // Filters over the record list
  // ---------------------------------------------------------------------

  /** A list comprehension's `if` clause: the elements `keep` accepts, in order. */
  function Filter<T(!new)>(s: seq<T>, keep: T -> bool): (r: seq<T>)
    ensures |r| <= |s|
    ensures forall x :: x in r <==> x in s && keep(x)
  {
    if s == [] then []
    else (if keep(s[0]) then [s[0]] else []) + Filter(s[1..], keep)
  }

  /** The positions `i <= p < |s|` whose elements `keep` accepts, in increasing order. */
  function Positions<T>(s: seq<T>, keep: T -> bool, i: nat): (p: seq<nat>)
    requires i <= |s|
    ensures forall k :: 0 <= k < |p| ==> i <= p[k] < |s| && keep(s[p[k]])
    ensures forall j :: i <= j < |s| && keep(s[j]) ==> j in p
    ensures forall a, b :: 0 <= a < b < |p| ==> p[a] < p[b]
    decreases |s| - i
  {
    if i == |s| then []
    else (if keep(s[i]) then [i] else []) + Positions(s, keep, i + 1)
  }

  /** A position is listed iff `keep` accepts its element. */
  lemma PositionsMembership<T>(s: seq<T>, keep: T -> bool)
    ensures forall i :: 0 <= i < |s| ==> (i in Positions(s, keep, 0) <==> keep(s[i]))
  {
    var p := Positions(s, keep, 0);
    forall i | 0 <= i < |s| && i in p ensures keep(s[i]) {
      var k :| 0 <= k < |p| && p[k] == i;
    }
  }

  /** The elements of `s` at the positions `p`, in the order of `p`. */
  function At<T>(s: seq<T>, p: seq<nat>): (r: seq<T>)
    requires forall k :: 0 <= k < |p| ==> p[k] < |s|
    ensures |r| == |p| && forall k :: 0 <= k < |p| ==> r[k] == s[p[k]]
  {
    if p == [] then [] else [s[p[0]]] + At(s, p[1..])
  }

  /**
   * A filter keeps exactly the accepted elements and keeps them in their
   * original order: it is the list of elements at the accepting positions.
   */
  lemma {:induction false} FilterInOrder<T(!new)>(s: seq<T>, keep: T -> bool, i: nat)
    requires i <= |s|
    ensures Filter(s[i..], keep) == At(s, Positions(s, keep, i))
    decreases |s| - i
  {
    if i < |s| {
      FilterInOrder(s, keep, i + 1);
      var t := s[i..];
      assert t[1..] == s[i + 1..] && t[0] == s[i];
      assert Filter(t, keep) == (if keep(s[i]) then [s[i]] else []) + Filter(s[i + 1..], keep);
      var rest := Positions(s, keep, i + 1);
      if keep(s[i]) {
        assert ([i] + rest)[1..] == rest;
      }
    }
  }

  /** Exactly one position is accepted, namely `i`. */
  predicate OnlyAccepted<T>(s: seq<T>, keep: T -> bool, i: int)
  {
    0 <= i < |s| && keep(s[i]) && forall j :: 0 <= j < |s| && j != i ==> !keep(s[j])
  }

  lemma {:induction false} PositionsOfOnlyAccepted<T>(s: seq<T>, keep: T -> bool, i: int, from: nat)
    requires OnlyAccepted(s, keep, i) && from <= |s|
    ensures Positions(s, keep, from) == if from <= i then [i] else []
    decreases |s| - from
  {
    if from < |s| {
      PositionsOfOnlyAccepted(s, keep, i, from + 1);
    }
  }

  lemma {:induction false} PositionsOfNone<T>(s: seq<T>, keep: T -> bool, from: nat)
    requires from <= |s| && forall j :: from <= j < |s| ==> !keep(s[j])
    ensures Positions(s, keep, from) == []
    decreases |s| - from
  {
    if from < |s| {
      PositionsOfNone(s, keep, from + 1);
    }
  }

  /** When only position `i` is accepted, the filter is the one-element list of `s[i]`. */
  lemma FilterOfOnlyAccepted<T(!new)>(s: seq<T>, keep: T -> bool, i: int)
    requires OnlyAccepted(s, keep, i)
    ensures Filter(s, keep) == [s[i]]
  {
    FilterInOrder(s, keep, 0);
    assert s[0..] == s;
    PositionsOfOnlyAccepted(s, keep, i, 0);
  }

  /** A one-element filter comes from the only accepted position. */
  lemma SingletonFilterAccepted<T(!new)>(s: seq<T>, keep: T -> bool)
    requires |Filter(s, keep)| == 1
    ensures exists i :: OnlyAccepted(s, keep, i)
  {
    FilterAt(s, keep);
    var p := Positions(s, keep, 0);
    // Every accepted position is in `p`, which holds only `p[0]`.
    assert p == [p[0]];
    assert OnlyAccepted(s, keep, p[0]);
  }

  /** A filter yields exactly one element iff exactly one element is accepted, and then it is that one. */
  lemma FilterExactlyOne<T(!new)>(s: seq<T>, keep: T -> bool)
    ensures |Filter(s, keep)| == 1 <==> exists i :: OnlyAccepted(s, keep, i)
    ensures forall i :: OnlyAccepted(s, keep, i) ==> Filter(s, keep) == [s[i]]
  {
    forall i | OnlyAccepted(s, keep, i) ensures Filter(s, keep) == [s[i]] {
      FilterOfOnlyAccepted(s, keep, i);
    }
    if |Filter(s, keep)| == 1 {
      SingletonFilterAccepted(s, keep);
    }
  }

  /** The filter's `k`-th element is the element at the `k`-th accepted position. */
  lemma FilterAt<T(!new)>(s: seq<T>, keep: T -> bool)
    ensures var f, p := Filter(s, keep), Positions(s, keep, 0);
      f == At(s, p) && |f| == |p| && forall k :: 0 <= k < |p| ==> f[k] == s[p[k]]
  {
    FilterInOrder(s, keep, 0);
    assert s[0..] == s;
  }

  /** The first accepted position is the first position at or after `from` that `keep` accepts. */
  lemma {:induction false} PositionsStartAtFirst<T>(s: seq<T>, keep: T -> bool, i: int, from: nat)
    requires from <= i < |s| && keep(s[i])
    requires forall j :: from <= j < i ==> !keep(s[j])
    ensures Positions(s, keep, from) != [] && Positions(s, keep, from)[0] == i
    decreases i - from
  {
    if from < i {
      PositionsStartAtFirst(s, keep, i, from + 1);
    }
  }

  // ---------------------------------------------------------------------
  // Key lookups with Python's exceptions
  // ---------------------------------------------------------------------

  predicate IsDateKey(key: string)
  {
    key == StartDateKey || key == EndDateKey
  }

  /**
   * `x['data'][key]`, passed through `string_to_datetime` for the two date
   * keys: KeyError for a missing key, ValueError for a malformed date,
   * TypeError for a date that is not a string.
   */
  function Lookup(r: Subject, key: string, parse: DateParser): Eval<KeyValue>
  {
    if key !in r.data then Raised(KeyError)
    else if !IsDateKey(key) then Done(Plain(r.data[key]))
    else match r.data[key]
      case JStr(text) => (match parse(text)
        case Some(t) => Done(Date(t))
        case None => Raised(ValueError))
      case _ => Raised(TypeError)
  }

  /**
   * The lookup over a list of records, as a comprehension evaluates it:
   * all values when every lookup succeeds, otherwise the first failure.
   */
  function LookupAll(records: seq<Subject>, key: string, parse: DateParser): (r: Eval<seq<KeyValue>>)
    ensures r.Done? <==> forall i :: 0 <= i < |records| ==> Lookup(records[i], key, parse).Done?
    ensures r.Done? ==> (|r.value| == |records| &&
      forall i :: 0 <= i < |records| ==> r.value[i] == Lookup(records[i], key, parse).value)
    ensures r.Raised? ==>
      exists i :: 0 <= i < |records| && Lookup(records[i], key, parse) == Raised(r.error) &&
        forall j :: 0 <= j < i ==> Lookup(records[j], key, parse).Done?
  {
    if records == [] then Done([])
    else match Lookup(records[0], key, parse)
      case Raised(e) => Raised(e)
      case Done(v) =>
        var rest := LookupAll(records[1..], key, parse);
        assert forall i :: 1 <= i < |records| ==> records[i] == records[1..][i - 1];
        match rest
        case Raised(e) =>
          var i :| 0 <= i < |records[1..]| && Lookup(records[1..][i], key, parse) == Raised(e) &&
            forall j :: 0 <= j < i ==> Lookup(records[1..][j], key, parse).Done?;
          assert Lookup(records[i + 1], key, parse) == Raised(e);
          Raised(e)
        case Done(vs) => Done([v] + vs)
  }

  /** Looking up a key other than the two dates can only fail with KeyError, and fails iff some record lacks the key. */
  lemma LookupAllPlainKey(records: seq<Subject>, key: string, parse: DateParser)
    requires !IsDateKey(key)
    ensures var r := LookupAll(records, key, parse);
      (r.Raised? <==> exists i :: 0 <= i < |records| && key !in records[i].data) &&
      (r.Raised? ==> r.error == KeyError) &&
      (r.Done? ==> forall i :: 0 <= i < |records| ==> r.value[i] == Plain(records[i].data[key]))
  {
  }

  /** Record `i` is the first whose lookup fails: every earlier lookup succeeds. */
  predicate FirstFailure(records: seq<Subject>, key: string, parse: DateParser, i: int)
  {
    0 <= i < |records| && Lookup(records[i], key, parse).Raised? &&
    forall j :: 0 <= j < i ==> Lookup(records[j], key, parse).Done?
  }

  /** The comprehension raises exactly the error of the first record whose lookup fails. */
  lemma LookupAllFirstFailure(records: seq<Subject>, key: string, parse: DateParser)
    ensures forall i :: FirstFailure(records, key, parse, i) ==>
      LookupAll(records, key, parse) == Raised(Lookup(records[i], key, parse).error)
  {
    var r := LookupAll(records, key, parse);
    forall i | FirstFailure(records, key, parse, i) ensures r == Raised(Lookup(records[i], key, parse).error) {
      assert !r.Done?;
      var w :| 0 <= w < |records| && Lookup(records[w], key, parse) == Raised(r.error) &&
        forall j :: 0 <= j < w ==> Lookup(records[j], key, parse).Done?;
      assert w == i;
    }
  }

  /** The lookup succeeds in the record at each position of `p`. */
  predicate LookupsSucceed(s: seq<Subject>, p: seq<nat>, key: string, parse: DateParser)
  {
    forall k :: 0 <= k < |p| ==> p[k] < |s| && Lookup(s[p[k]], key, parse).Done?
  }

  /** The lookup over the records at positions `p` of `s`, position by position. */
  lemma LookupAllAt(s: seq<Subject>, p: seq<nat>, key: string, parse: DateParser)
    requires forall k :: 0 <= k < |p| ==> p[k] < |s|
    ensures var r := LookupAll(At(s, p), key, parse);
      (r.Done? <==> LookupsSucceed(s, p, key, parse)) &&
      (r.Done? ==> |r.value| == |p| && forall k :: 0 <= k < |p| ==> r.value[k] == Lookup(s[p[k]], key, parse).value)
    ensures forall k :: FirstFailure(At(s, p), key, parse, k) ==>
      LookupAll(At(s, p), key, parse) == Raised(Lookup(s[p[k]], key, parse).error)
  {
    LookupAllFirstFailure(At(s, p), key, parse);
  }

  /**
   * The reply of a query whose `except KeyError` clause has no `return` and
   * whose bare `except` returns the empty array.
   */
  function KeyErrorReply<T>(e: Error): Reply<T>
  {
    if e == KeyError then NoneReply else EmptyArray
  }

  /** A comprehension's outcome as such a query returns it. */
  function ReplyOf<T>(e: Eval<T>): Reply<T>
  {
    match e
    case Done(v) => Value(v)
    case Raised(err) => KeyErrorReply(err)
  }

  // ---------------------------------------------------------------------
  // The metadata file
  // ---------------------------------------------------------------------

  predicate HasSolStandard(r: Subject)
  {
    SolStandardKey in r.data && r.data[SolStandardKey].JStr?
  }

  /** Every record carries its `#sol_standard` string, which the constructor reads. */
  predicate Readable(records: seq<Subject>)
  {
    forall i :: 0 <= i < |records| ==> HasSolStandard(records[i])
  }

  function SolStandardOf(r: Subject): string
    requires HasSolStandard(r)
  {
    r.data[SolStandardKey].s
  }

  /** A loaded metadata file with the two fields the constructor derives. */
  datatype MetaFile = MetaFile(fileName: string, data: seq<Subject>, subjects: seq<int>, solUnique: seq<string>)

  function Ids(records: seq<Subject>): (ids: seq<int>)
    ensures |ids| == |records|
  {
    seq(|records|, i requires 0 <= i < |records| => records[i].subjectId)
  }

  function Datas(records: seq<Subject>): (ds: seq<Metadata>)
    ensures |ds| == |records|
  {
    seq(|records|, i requires 0 <= i < |records| => records[i].data)
  }

  function SolStandards(records: seq<Subject>): (sols: seq<string>)
    requires Readable(records)
    ensures |sols| == |records|
  {
    seq(|records|, i requires 0 <= i < |records| => SolStandardOf(records[i]))
  }

  /**
   * MetaFile.__init__ after the JSON is read: `subjects` lists every
   * record's id in file order, and `SOL_unique` is the sorted list of the
   * distinct `#sol_standard` values.
   */
  function Open(fileName: string, records: seq<Subject>): (m: MetaFile)
    requires Readable(records)
    ensures m.fileName == fileName && m.data == records
    ensures |m.subjects| == |records| && forall i :: 0 <= i < |records| ==> m.subjects[i] == records[i].subjectId
    ensures Unique.StrictlySorted(m.solUnique)
    ensures forall s :: s in m.solUnique <==> exists i :: 0 <= i < |records| && SolStandardOf(records[i]) == s
  {
    var sols := SolStandards(records);
    assert forall i :: 0 <= i < |records| ==> sols[i] == SolStandardOf(records[i]);
    MetaFile(fileName, records, Ids(records), Unique.Unique(sols))
  }

  // ---------------------------------------------------------------------
  // Queries by #sol_standard
  // ---------------------------------------------------------------------

  function SolIs(sol: string): Subject -> bool
  {
    (r: Subject) => HasSolStandard(r) && SolStandardOf(r) == sol
  }

  /** get_subjectid_by_solstandard: the ids of the records at the event's positions, in file order. */
  function SubjectIdsBySolStandard(m: MetaFile, sol: string): (ids: seq<int>)
    ensures |ids| == |Positions(m.data, SolIs(sol), 0)|
    ensures var p := Positions(m.data, SolIs(sol), 0);
      forall k :: 0 <= k < |p| ==> ids[k] == m.data[p[k]].subjectId
  {
    var event := Filter(m.data, SolIs(sol));
    FilterAt(m.data, SolIs(sol));
    Ids(event)
  }

  /** get_subjectdata_by_solstandard: the data of the records at the event's positions, in file order. */
  function SubjectDataBySolStandard(m: MetaFile, sol: string): (ds: seq<Metadata>)
    ensures |ds| == |Positions(m.data, SolIs(sol), 0)|
    ensures var p := Positions(m.data, SolIs(sol), 0);
      forall k :: 0 <= k < |p| ==> ds[k] == m.data[p[k]].data
  {
    var event := Filter(m.data, SolIs(sol));
    FilterAt(m.data, SolIs(sol));
    Datas(event)
  }

  /**
   * Both #sol_standard queries return one entry per record whose
   * `#sol_standard` equals the argument, and only those, in file order.
   */
  lemma SolStandardQueriesInFileOrder(m: MetaFile, sol: string)
    ensures var p := Positions(m.data, SolIs(sol), 0);
      (forall i :: 0 <= i < |m.data| ==> (i in p <==> HasSolStandard(m.data[i]) && SolStandardOf(m.data[i]) == sol)) &&
      SubjectIdsBySolStandard(m, sol) == Ids(At(m.data, p)) &&
      SubjectDataBySolStandard(m, sol) == Datas(At(m.data, p))
  {
    PositionsMembership(m.data, SolIs(sol));
  }

  /**
   * get_subjectkeyvalue_by_solstandard: the key's value for every record
   * of the event, in file order, when every such lookup succeeds; otherwise
   * the reply is decided by the first record of the event whose lookup fails.
   */
  function SubjectKeyValueBySolStandard(m: MetaFile, sol: string, key: string, parse: DateParser): (r: Reply<seq<KeyValue>>)
    ensures var p := Positions(m.data, SolIs(sol), 0);
      (r.Value? <==> LookupsSucceed(m.data, p, key, parse)) &&
      (r.Value? ==> |r.value| == |p| && forall k :: 0 <= k < |p| ==> r.value[k] == Lookup(m.data[p[k]], key, parse).value)
    ensures var p := Positions(m.data, SolIs(sol), 0);
      forall k :: FirstFailure(At(m.data, p), key, parse, k) ==> r == KeyErrorReply(Lookup(m.data[p[k]], key, parse).error)
  {
    var p := Positions(m.data, SolIs(sol), 0);
    FilterAt(m.data, SolIs(sol));
    LookupAllAt(m.data, p, key, parse);
    ReplyOf(LookupAll(At(m.data, p), key, parse))
  }

  /** A non-date key that a record of the event lacks makes the query return None. */
  lemma SolStandardKeyValues(m: MetaFile, sol: string, key: string, parse: DateParser)
    ensures var p := Positions(m.data, SolIs(sol), 0);
      !IsDateKey(key) && (exists k :: 0 <= k < |p| && key !in m.data[p[k]].data) ==>
        SubjectKeyValueBySolStandard(m, sol, key, parse) == NoneReply
  {
    FilterAt(m.data, SolIs(sol));
    if !IsDateKey(key) {
      LookupAllPlainKey(Filter(m.data, SolIs(sol)), key, parse);
    }
  }

  // ---------------------------------------------------------------------
  // Query by date range
  // ---------------------------------------------------------------------

  /** The record's start date parses and lies strictly between the two bounds. */
  function StartsWithin(s: Instant, e: Instant, parse: DateParser): Subject -> bool
  {
    (r: Subject) => var d := Lookup(r, StartDateKey, parse); d.Done? && d.value.Date? && s < d.value.at < e
  }

  /**
   * get_subjectid_by_dates. A malformed bound or start date raises
   * ValueError, whose `except` clause returns nothing; any other failure
   * (a record without `startDate`, a date that is not a string) gives the
   * empty array. Otherwise the ids of the records starting strictly between
   * the bounds come back in file order.
   */
  function SubjectIdsByDates(m: MetaFile, startDate: string, endDate: string, parse: DateParser): (r: Reply<seq<int>>)
    ensures parse(startDate).None? || parse(endDate).None? ==> r == NoneReply
    ensures parse(startDate).Some? && parse(endDate).Some? ==>
      var p := Positions(m.data, StartsWithin(parse(startDate).value, parse(endDate).value, parse), 0);
      (r.Value? <==> forall i :: 0 <= i < |m.data| ==> Lookup(m.data[i], StartDateKey, parse).Done?) &&
      (r.Value? ==> |r.value| == |p| && forall k :: 0 <= k < |p| ==> r.value[k] == m.data[p[k]].subjectId)
    ensures parse(startDate).Some? && parse(endDate).Some? ==>
      forall i :: FirstFailure(m.data, StartDateKey, parse, i) ==>
        r == if Lookup(m.data[i], StartDateKey, parse).error == ValueError then NoneReply else EmptyArray
  {
    match (parse(startDate), parse(endDate))
    case (None, _) => NoneReply
    case (_, None) => NoneReply
    case (Some(s), Some(e)) =>
      LookupAllFirstFailure(m.data, StartDateKey, parse);
      FilterAt(m.data, StartsWithin(s, e, parse));
      match LookupAll(m.data, StartDateKey, parse)
      case Raised(ValueError) => NoneReply
      case Raised(_) => EmptyArray
      case Done(_) => Value(Ids(Filter(m.data, StartsWithin(s, e, parse))))
  }

  /** The records the date query keeps are those whose start date lies strictly between the bounds. */
  lemma DateQueryKeepsStrictlyInside(m: MetaFile, s: Instant, e: Instant, parse: DateParser)
    requires forall i :: 0 <= i < |m.data| ==> Lookup(m.data[i], StartDateKey, parse).Done?
    ensures forall i :: 0 <= i < |m.data| ==>
      (i in Positions(m.data, StartsWithin(s, e, parse), 0) <==> s < Lookup(m.data[i], StartDateKey, parse).value.at < e)
  {
    PositionsMembership(m.data, StartsWithin(s, e, parse));
  }

  // ---------------------------------------------------------------------
  // Queries by subject id
  // ---------------------------------------------------------------------

  function IdIs(subject: int): Subject -> bool
  {
    (r: Subject) => r.subjectId == subject
  }

  /** Exactly one record, record `i`, has the id. */
  predicate OnlyWithId(records: seq<Subject>, subject: int, i: int)
  {
    0 <= i < |records| && records[i].subjectId == subject &&
    forall j :: 0 <= j < |records| && j != i ==> records[j].subjectId != subject
  }

  /** Exactly one record has the id. */
  ghost predicate HasOneRecord(records: seq<Subject>, subject: int)
  {
    exists i :: OnlyWithId(records, subject, i)
  }

  /**
   * get_subjectdata_by_id: a value exactly when one record has the id, and
   * then it is that record's data; otherwise the empty array.
   */
  function SubjectDataById(m: MetaFile, subject: int): (r: Reply<Metadata>)
    ensures r.Value? <==> HasOneRecord(m.data, subject)
    ensures forall i :: OnlyWithId(m.data, subject, i) ==> r == Value(m.data[i].data)
    ensures !r.Value? ==> r == EmptyArray
  {
    FilterExactlyOne(m.data, IdIs(subject));
    assert forall i :: OnlyWithId(m.data, subject, i) <==> OnlyAccepted(m.data, IdIs(subject), i);
    var response := Datas(Filter(m.data, IdIs(subject)));
    if |response| == 1 then Value(response[0]) else EmptyArray
  }

  /** `i` is the first record with the id. */
  predicate FirstWithId(records: seq<Subject>, subject: int, i: int)
  {
    0 <= i < |records| && records[i].subjectId == subject &&
    forall j :: 0 <= j < i ==> records[j].subjectId != subject
  }

  /** The records with the id, in file order. */
  function WithId(records: seq<Subject>, subject: int): (w: seq<Subject>)
    ensures forall r :: r in w <==> r in records && r.subjectId == subject
  {
    Filter(records, IdIs(subject))
  }

  /** The records with the id are those at the positions holding it, in increasing order; the first is the first such record. */
  lemma WithIdInFileOrder(records: seq<Subject>, subject: int)
    ensures var w, p := WithId(records, subject), Positions(records, IdIs(subject), 0);
      |w| == |p| && (forall k :: 0 <= k < |p| ==> w[k] == records[p[k]]) &&
      (forall i :: 0 <= i < |records| ==> (i in p <==> records[i].subjectId == subject)) &&
      (forall a, b :: 0 <= a < b < |p| ==> p[a] < p[b])
    ensures forall i :: FirstWithId(records, subject, i) ==> |WithId(records, subject)| > 0 && WithId(records, subject)[0] == records[i]
  {
    FilterAt(records, IdIs(subject));
    PositionsMembership(records, IdIs(subject));
    forall i | FirstWithId(records, subject, i) ensures |WithId(records, subject)| > 0 && WithId(records, subject)[0] == records[i] {
      PositionsStartAtFirst(records, IdIs(subject), i, 0);
    }
  }

  /**
   * One requested id, as `[x['data'][key] for x in data if x['subjectId'] == id][0]`
   * evaluates it: the comprehension looks the key up in every record with
   * the id, so the first of them whose lookup fails decides the error; with
   * no such record the value is taken from the first one; with no record at
   * all, `[0]` raises IndexError.
   */
  function FirstValue(records: seq<Subject>, subject: int, key: string, parse: DateParser): (v: Eval<KeyValue>)
    ensures var w := WithId(records, subject);
      v.Done? <==> |w| > 0 && forall k :: 0 <= k < |w| ==> Lookup(w[k], key, parse).Done?
    ensures v.Done? ==> v.value == Lookup(WithId(records, subject)[0], key, parse).value
    ensures WithId(records, subject) == [] ==> v == Raised(IndexError)
    ensures var w := WithId(records, subject);
      forall k :: FirstFailure(w, key, parse, k) ==> v == Raised(Lookup(w[k], key, parse).error)
  {
    LookupAllFirstFailure(WithId(records, subject), key, parse);
    match LookupAll(WithId(records, subject), key, parse)
    case Raised(e) => Raised(e)
    case Done(vs) => if |vs| == 0 then Raised(IndexError) else Done(vs[0])
  }

  /**
   * get_subjectkeyvalue_by_id: the key's value in the first record with the
   * id. A KeyError from any record with the id returns None; a malformed or
   * non-string date, or no record with the id (IndexError), the empty array.
   */
  function SubjectKeyValueById(m: MetaFile, subject: int, key: string, parse: DateParser): (r: Reply<KeyValue>)
    ensures var w := WithId(m.data, subject);
      r.Value? <==> |w| > 0 && forall k :: 0 <= k < |w| ==> Lookup(w[k], key, parse).Done?
    ensures r.Value? ==> r.value == Lookup(WithId(m.data, subject)[0], key, parse).value
    ensures WithId(m.data, subject) == [] ==> r == EmptyArray
    ensures var w := WithId(m.data, subject);
      forall k :: FirstFailure(w, key, parse, k) ==> r == KeyErrorReply(Lookup(w[k], key, parse).error)
  {
    ReplyOf(FirstValue(m.data, subject, key, parse))
  }

  /** No record with the id: the lookup raises IndexError and the query returns the empty array. */
  lemma KeyValueByIdUnknown(m: MetaFile, subject: int, key: string, parse: DateParser)
    requires forall i :: 0 <= i < |m.data| ==> m.data[i].subjectId != subject
    ensures SubjectKeyValueById(m, subject, key, parse) == EmptyArray
  {
    if WithId(m.data, subject) != [] {
      assert WithId(m.data, subject)[0] in WithId(m.data, subject);
    }
  }

  /** A non-date key missing from any record with the id makes the query return None. */
  lemma KeyValueByIdMissingKey(m: MetaFile, subject: int, key: string, parse: DateParser, j: int)
    requires !IsDateKey(key)
    requires 0 <= j < |m.data| && m.data[j].subjectId == subject && key !in m.data[j].data
    ensures SubjectKeyValueById(m, subject, key, parse) == NoneReply
  {
    var w := WithId(m.data, subject);
    assert m.data[j] in w;
    LookupAllPlainKey(w, key, parse);
  }

  /** Otherwise the value of a non-date key is taken from the first record with the id. */
  lemma KeyValueByIdFirstRecord(m: MetaFile, subject: int, key: string, parse: DateParser, i: int)
    requires !IsDateKey(key)
    requires FirstWithId(m.data, subject, i)
    requires forall j :: 0 <= j < |m.data| && m.data[j].subjectId == subject ==> key in m.data[j].data
    ensures SubjectKeyValueById(m, subject, key, parse) == Value(Plain(m.data[i].data[key]))
  {
    WithIdInFileOrder(m.data, subject);
    LookupAllPlainKey(WithId(m.data, subject), key, parse);
  }

  /** The outer comprehension over the requested ids, evaluated in list order. */
  function FirstValues(records: seq<Subject>, ids: seq<int>, key: string, parse: DateParser): (r: Eval<seq<KeyValue>>)
    ensures r.Done? <==> forall k :: 0 <= k < |ids| ==> FirstValue(records, ids[k], key, parse).Done?
    ensures r.Done? ==> (|r.value| == |ids| &&
      forall k :: 0 <= k < |ids| ==> r.value[k] == FirstValue(records, ids[k], key, parse).value)
  {
    if ids == [] then Done([])
    else match FirstValue(records, ids[0], key, parse)
      case Raised(e) => Raised(e)
      case Done(v) =>
        assert forall k :: 1 <= k < |ids| ==> ids[k] == ids[1..][k - 1];
        match FirstValues(records, ids[1..], key, parse)
        case Raised(e) => Raised(e)
        case Done(vs) => Done([v] + vs)
  }

  /** Requested id `k` is the first one whose value cannot be found. */
  predicate FirstIdFailure(records: seq<Subject>, ids: seq<int>, key: string, parse: DateParser, k: int)
  {
    0 <= k < |ids| && FirstValue(records, ids[k], key, parse).Raised? &&
    forall j :: 0 <= j < k ==> FirstValue(records, ids[j], key, parse).Done?
  }

  /** The error of the outer comprehension is the error of the first requested id that fails. */
  lemma {:induction false} FirstValuesError(records: seq<Subject>, ids: seq<int>, key: string, parse: DateParser)
    ensures FirstValues(records, ids, key, parse).Raised? ==>
      exists k :: FirstIdFailure(records, ids, key, parse, k) &&
        FirstValue(records, ids[k], key, parse) == Raised(FirstValues(records, ids, key, parse).error)
  {
    if ids != [] && FirstValue(records, ids[0], key, parse).Done? {
      FirstValuesError(records, ids[1..], key, parse);
      if FirstValues(records, ids[1..], key, parse).Raised? {
        var k :| FirstIdFailure(records, ids[1..], key, parse, k) &&
          FirstValue(records, ids[1..][k], key, parse) == Raised(FirstValues(records, ids[1..], key, parse).error);
        assert ids[1..][k] == ids[k + 1];
        forall j | 0 <= j < k + 1 ensures FirstValue(records, ids[j], key, parse).Done? {
          if j > 0 {
            assert ids[j] == ids[1..][j - 1];
          }
        }
        assert FirstIdFailure(records, ids, key, parse, k + 1);
      }
    } else if ids != [] {
      assert FirstIdFailure(records, ids, key, parse, 0);
    }
  }

  /**
   * get_subjectkeyvalue_by_list: one value per requested id, in list order;
   * otherwise the reply is decided by the first requested id that fails.
   */
  function SubjectKeyValueByList(m: MetaFile, ids: seq<int>, key: string, parse: DateParser): (r: Reply<seq<KeyValue>>)
    ensures r.Value? <==> forall k :: 0 <= k < |ids| ==> FirstValue(m.data, ids[k], key, parse).Done?
    ensures r.Value? ==> (|r.value| == |ids| &&
      forall k :: 0 <= k < |ids| ==> r.value[k] == FirstValue(m.data, ids[k], key, parse).value)
    ensures forall k :: FirstIdFailure(m.data, ids, key, parse, k) ==>
      r == KeyErrorReply(FirstValue(m.data, ids[k], key, parse).error)
  {
    FirstValuesError(m.data, ids, key, parse);
    match FirstValues(m.data, ids, key, parse)
    case Done(vs) => Value(vs)
    case Raised(e) => KeyErrorReply(e)
  }

  /** Every record has the key, which is not one of the two dates. */
  predicate PlainKeyEverywhere(records: seq<Subject>, key: string)
  {
    !IsDateKey(key) && forall i :: 0 <= i < |records| ==> key in records[i].data
  }

  /** With the key everywhere, one requested id can only fail with IndexError, exactly when no record has it. */
  lemma FirstValueOfOneId(records: seq<Subject>, subject: int, key: string, parse: DateParser)
    requires PlainKeyEverywhere(records, key)
    ensures var v := FirstValue(records, subject, key, parse);
      (v.Raised? <==> forall i :: 0 <= i < |records| ==> records[i].subjectId != subject) &&
      (v.Raised? ==> v.error == IndexError) &&
      forall i :: FirstWithId(records, subject, i) ==> v == Done(Plain(records[i].data[key]))
  {
    var w := WithId(records, subject);
    LookupAllPlainKey(w, key, parse);
    WithIdInFileOrder(records, subject);
    forall i | 0 <= i < |records| && records[i].subjectId == subject ensures w != [] {
      assert records[i] in w;
    }
    if w != [] {
      assert w[0] in w;
    }
  }

  /** Some record has the id. */
  predicate Occurs(records: seq<Subject>, subject: int)
  {
    exists i :: 0 <= i < |records| && records[i].subjectId == subject
  }

  /**
   * For a non-date key that every record has and ids that all occur: one
   * value per requested id, in the order of the list, each from the first
   * record with that id.
   */
  lemma KeyValueByListInListOrder(m: MetaFile, ids: seq<int>, key: string, parse: DateParser)
    requires PlainKeyEverywhere(m.data, key)
    requires forall k :: 0 <= k < |ids| ==> Occurs(m.data, ids[k])
    ensures var r := SubjectKeyValueByList(m, ids, key, parse);
      r.Value? && |r.value| == |ids| &&
      forall k, i :: 0 <= k < |ids| && FirstWithId(m.data, ids[k], i) ==> r.value[k] == Plain(m.data[i].data[key])
  {
    forall k | 0 <= k < |ids| ensures FirstValue(m.data, ids[k], key, parse).Done? {
      FirstValueOfOneId(m.data, ids[k], key, parse);
    }
    forall k, i | 0 <= k < |ids| && FirstWithId(m.data, ids[k], i)
      ensures FirstValue(m.data, ids[k], key, parse) == Done(Plain(m.data[i].data[key]))
    {
      FirstValueOfOneId(m.data, ids[k], key, parse);
    }
  }

  /** A single requested id that no record has turns the whole answer into the empty array. */
  lemma KeyValueByListUnknownId(m: MetaFile, ids: seq<int>, key: string, parse: DateParser, k: int)
    requires PlainKeyEverywhere(m.data, key)
    requires 0 <= k < |ids| && forall i :: 0 <= i < |m.data| ==> m.data[i].subjectId != ids[k]
    ensures SubjectKeyValueByList(m, ids, key, parse) == EmptyArray
  {
    FirstValueOfOneId(m.data, ids[k], key, parse);
    FirstValuesError(m.data, ids, key, parse);
    var r := FirstValues(m.data, ids, key, parse);
    var q :| FirstIdFailure(m.data, ids, key, parse, q) && FirstValue(m.data, ids[q], key, parse) == Raised(r.error);
    FirstValueOfOneId(m.data, ids[q], key, parse);
  }

  // ---------------------------------------------------------------------
  // Queries by jet cluster
  // ---------------------------------------------------------------------

  /** A jet cluster as these queries see it: its identifier and the subject of each of its jets, in jet order. */
  datatype JetCluster = JetCluster(id: string, jetSubjects: seq<int>)

  function IdEquals(shjId: string): JetCluster -> bool
  {
    (c: JetCluster) => c.id == shjId
  }

  /**
   * get_subjectid_by_JetCluster: the comprehension indexes the list at 0 and
   * 1 only, so a list with fewer than two clusters raises IndexError, and
   * a cluster further down the list is never found.
   */
  function SubjectIdsByJetCluster(clusters: seq<JetCluster>, shjId: string): (r: Reply<seq<int>>)
    ensures r.Value? <==> |clusters| >= 2 && (clusters[0].id == shjId || clusters[1].id == shjId)
    ensures r.Value? ==> r.value == (if clusters[0].id == shjId then clusters[0] else clusters[1]).jetSubjects
    ensures !r.Value? ==> r == EmptyArray
  {
    if |clusters| < 2 then EmptyArray
    else
      var firstTwo := clusters[..2];
      var found := Filter(firstTwo, IdEquals(shjId));
      assert firstTwo == [clusters[0], clusters[1]] && firstTwo[1..] == [clusters[1]] && [clusters[1]][1..] == [];
      assert found == (if clusters[0].id == shjId then [clusters[0]] else []) + Filter([clusters[1]], IdEquals(shjId));
      assert found == (if clusters[0].id == shjId then [clusters[0]] else []) +
        (if clusters[1].id == shjId then [clusters[1]] else []);
      if |found| == 0 then EmptyArray
      else Value(found[0].jetSubjects)
  }

  /** The subjects of the found cluster, or none (iterating the empty array). */
  function ClusterSubjects(clusters: seq<JetCluster>, shjId: string): (subjects: seq<int>)
    ensures SubjectIdsByJetCluster(clusters, shjId).Value? ==> subjects == SubjectIdsByJetCluster(clusters, shjId).value
    ensures !SubjectIdsByJetCluster(clusters, shjId).Value? ==> subjects == []
  {
    match SubjectIdsByJetCluster(clusters, shjId) case Value(v) => v case _ => []
  }

  /**
   * A list holding both a record's data and an empty array: `np.asarray`
   * cannot give it one shape and raises ValueError.
   */
  predicate Ragged(replies: seq<Reply<Metadata>>)
  {
    (exists k :: 0 <= k < |replies| && replies[k].Value?) && (exists k :: 0 <= k < |replies| && !replies[k].Value?)
  }

  /**
   * get_subjectdata_by_JetCluster: the data of each subject of the cluster,
   * looked up one by one. Nothing catches the ValueError that `np.asarray`
   * raises when some subjects are found once and others are not.
   */
  function SubjectDataByJetCluster(m: MetaFile, clusters: seq<JetCluster>, shjId: string): (r: Eval<seq<Reply<Metadata>>>)
    ensures var subjects := ClusterSubjects(clusters, shjId);
      (r.Raised? <==> (exists k :: 0 <= k < |subjects| && HasOneRecord(m.data, subjects[k])) &&
                      (exists k :: 0 <= k < |subjects| && !HasOneRecord(m.data, subjects[k]))) &&
      (r.Raised? ==> r.error == ValueError)
    ensures var subjects := ClusterSubjects(clusters, shjId);
      r.Done? ==> (|r.value| == |subjects| &&
        forall k :: 0 <= k < |subjects| ==>
          r.value[k] == SubjectDataById(m, subjects[k]) && (r.value[k].Value? <==> HasOneRecord(m.data, subjects[k])))
  {
    var subjects := ClusterSubjects(clusters, shjId);
    var replies := seq(|subjects|, k requires 0 <= k < |subjects| => SubjectDataById(m, subjects[k]));
    assert forall k :: 0 <= k < |subjects| ==> (replies[k].Value? <==> HasOneRecord(m.data, subjects[k]));
    if Ragged(replies) then Raised(ValueError) else Done(replies)
  }

  /** get_subjectkeyvalue_by_JetCluster: the list query over the cluster's subjects (none when it is not found). */
  function SubjectKeyValueByJetCluster(m: MetaFile, clusters: seq<JetCluster>, shjId: string, key: string,
                                       parse: DateParser): (r: Reply<seq<KeyValue>>)
    ensures !SubjectIdsByJetCluster(clusters, shjId).Value? ==> r == Value([])
    ensures SubjectIdsByJetCluster(clusters, shjId).Value? ==>
      r == SubjectKeyValueByList(m, SubjectIdsByJetCluster(clusters, shjId).value, key, parse)
  {
    SubjectKeyValueByList(m, ClusterSubjects(clusters, shjId), key, parse)
  }

  /**
   * For a found cluster whose subjects all occur in the file and a non-date
   * key that every record has: one value per jet of the cluster, in jet
   * order, each from the first record of that jet's subject.
   */
  lemma KeyValueByJetClusterInJetOrder(m: MetaFile, clusters: seq<JetCluster>, shjId: string, key: string,
                                       parse: DateParser, c: int)
    requires PlainKeyEverywhere(m.data, key)
    requires |clusters| >= 2 && 0 <= c < 2 && clusters[c].id == shjId && (c == 1 ==> clusters[0].id != shjId)
    requires forall k :: 0 <= k < |clusters[c].jetSubjects| ==> Occurs(m.data, clusters[c].jetSubjects[k])
    ensures var r := SubjectKeyValueByJetCluster(m, clusters, shjId, key, parse);
      var subjects := clusters[c].jetSubjects;
      r.Value? && |r.value| == |subjects| &&
      forall k, i :: 0 <= k < |subjects| && FirstWithId(m.data, subjects[k], i) ==> r.value[k] == Plain(m.data[i].data[key])
  {
    assert SubjectIdsByJetCluster(clusters, shjId) == Value(clusters[c].jetSubjects);
    KeyValueByListInListOrder(m, clusters[c].jetSubjects, key, parse);
  }
}
