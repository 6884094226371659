/** The `Study` record of scraper.py: one posting on the portal's study list,
    its identity string, and its dictionary form (`to_dict` / `from_dict`),
    which is what the seen store writes to disk. */
module Studies {
  import opened Wrappers
  import opened Text
  import opened Dicts

  /** A study as scraped: `details` maps column names to cell text, in
      column order. */
  datatype Study = Study(
    name: string,
    url: string,
    yearTypeId: int,
    yearTypeLabel: string,
    details: Dict<string, string>)

  /** The dedup key `{year_type_id}:{name}:{url}`. */
  function UniqueId(s: Study): string {
    IntToString(s.yearTypeId) + ":" + s.name + ":" + s.url
  }

  /** The label and the details play no part in a study's identity. */
  lemma IdentityIgnoresLabelAndDetails(s: Study, newLabel: string, newDetails: Dict<string, string>)
    ensures UniqueId(s.(yearTypeLabel := newLabel, details := newDetails)) == UniqueId(s)
  {
  }

  /** A colon-free prefix is recovered from "prefix:rest". */
  lemma SplitAtColon(p1: string, q1: string, p2: string, q2: string)
    requires ':' !in p1 && ':' !in p2
    requires p1 + ":" + q1 == p2 + ":" + q2
    ensures p1 == p2 && q1 == q2
  {
    var u := p1 + ":" + q1;
    assert u[..|p1|] == p1 && u[|p1|] == ':';
    FirstOccurrence(u, ":", |p1|);
    assert u[..|p2|] == p2 && u[|p2|] == ':' by {
      assert u == p2 + ":" + q2;
    }
    FirstOccurrence(u, ":", |p2|);
    assert p1 == u[..|p1|] == p2;
    assert q1 == u[|p1| + 1..] == q2;
  }

  /** The identity string determines the category a study was fetched under. */
  lemma UniqueIdDeterminesCategory(a: Study, b: Study)
    requires UniqueId(a) == UniqueId(b)
    ensures a.yearTypeId == b.yearTypeId
  {
    var x, y := IntToString(a.yearTypeId), IntToString(b.yearTypeId);
    assert ':' !in x && ':' !in y;
    assert UniqueId(a) == x + ":" + (a.name + ":" + a.url);
    assert UniqueId(b) == y + ":" + (b.name + ":" + b.url);
    SplitAtColon(x, a.name + ":" + a.url, y, b.name + ":" + b.url);
    IntToStringInjective(a.yearTypeId, b.yearTypeId);
  }

  /** When names contain no colon, equal identities mean equal category,
      name and url. */
  lemma UniqueIdDeterminesKeyFields(a: Study, b: Study)
    requires UniqueId(a) == UniqueId(b)
    requires ':' !in a.name && ':' !in b.name
    ensures a.yearTypeId == b.yearTypeId && a.name == b.name && a.url == b.url
  {
    var x, y := IntToString(a.yearTypeId), IntToString(b.yearTypeId);
    assert ':' !in x && ':' !in y;
    assert UniqueId(a) == x + ":" + (a.name + ":" + a.url);
    assert UniqueId(b) == y + ":" + (b.name + ":" + b.url);
    SplitAtColon(x, a.name + ":" + a.url, y, b.name + ":" + b.url);
    SplitAtColon(a.name, a.url, b.name, b.url);
    IntToStringInjective(a.yearTypeId, b.yearTypeId);
  }

  /** A colon inside a name lets two different studies share one identity. */
  lemma ColonInNameCollides()
    ensures UniqueId(Study("a:b", "c", 1, "", [])) == UniqueId(Study("a", "b:c", 1, "", []))
  {
  }

  /** A JSON value as `to_dict` builds it and the store file holds it. */
  datatype Value = Str(s: string) | Int(i: int) | Obj(fields: Dict<string, Value>)

  datatype DecodeError = NotAnObject | MissingKey(key: string) | WrongType(key: string)

  function DetailsValue(details: Dict<string, string>): Dict<string, Value> {
    seq(|details|, i requires 0 <= i < |details| => (details[i].0, Str(details[i].1)))
  }

  /** The details map back from its JSON form; None when a value is not a string. */
  function DetailsFromValue(fields: Dict<string, Value>): Option<Dict<string, string>> {
    if fields == [] then Some([])
    else match fields[0].1
      case Str(text) =>
        (match DetailsFromValue(fields[1..])
         case Some(rest) => Some([(fields[0].0, text)] + rest)
         case None => None)
      case _ => None
  }

  /** `Study.to_dict` */
  function ToDict(s: Study): Value {
    Obj([("name", Str(s.name)),
         ("url", Str(s.url)),
         ("year_type_id", Int(s.yearTypeId)),
         ("year_type_label", Str(s.yearTypeLabel)),
         ("details", Obj(DetailsValue(s.details)))])
  }

  function StrField(fields: Dict<string, Value>, key: string): Result<string, DecodeError> {
    match Get<string, Value>(fields, key)
    case None => Failure(MissingKey(key))
    case Some(Str(text)) => Success(text)
    case Some(_) => Failure(WrongType(key))
  }

  function IntField(fields: Dict<string, Value>, key: string): Result<int, DecodeError> {
    match Get<string, Value>(fields, key)
    case None => Failure(MissingKey(key))
    case Some(Int(i)) => Success(i)
    case Some(_) => Failure(WrongType(key))
  }

  /** `data.get("details", {})` */
  function DetailsField(fields: Dict<string, Value>): Result<Dict<string, string>, DecodeError> {
    match Get<string, Value>(fields, "details")
    case None => Success([])
    case Some(Obj(entries)) =>
      (match DetailsFromValue(entries)
       case Some(details) => Success(details)
       case None => Failure(WrongType("details")))
    case Some(_) => Failure(WrongType("details"))
  }

  /** `Study.from_dict`: the keys are read in the order the constructor call
      names them, so the first missing one is the one reported. */
  function FromDict(v: Value): Result<Study, DecodeError> {
    if !v.Obj? then Failure(NotAnObject)
    else
      var name :- StrField(v.fields, "name");
      var url :- StrField(v.fields, "url");
      var id :- IntField(v.fields, "year_type_id");
      var yearTypeLabel :- StrField(v.fields, "year_type_label");
      var details :- DetailsField(v.fields);
      Success(Study(name, url, id, yearTypeLabel, details))
  }

  lemma {:induction false} DetailsRoundTrip(details: Dict<string, string>)
    ensures DetailsFromValue(DetailsValue(details)) == Some(details)
  {
    if details != [] {
      DetailsRoundTrip(details[1..]);
      assert DetailsValue(details)[1..] == DetailsValue(details[1..]);
      assert details == [(details[0].0, details[0].1)] + details[1..];
    }
  }

  /** `from_dict(to_dict(s))` reproduces s field for field. */
  lemma FromDictToDict(s: Study)
    ensures FromDict(ToDict(s)) == Success(s)
  {
    var fields := ToDict(s).fields;
    GetAt(fields, 0);
    GetAt(fields, 1);
    GetAt(fields, 2);
    GetAt(fields, 3);
    GetAt(fields, 4);
    DetailsRoundTrip(s.details);
  }

  /** A dictionary without "details" decodes to a study with no details. */
  lemma FromDictWithoutDetails(fields: Dict<string, Value>)
    requires "details" !in Keys(fields)
    ensures FromDict(Obj(fields)).Success? ==> FromDict(Obj(fields)).value.details == []
  {
  }
}
