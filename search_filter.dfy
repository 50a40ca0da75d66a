/** MailDaemon.createSearchFilter (src/app/mail.js:220-255): turns an options
    record into a Gmail query made of space-prefixed clauses. */
module SearchFilter {
  import opened Wrappers
  import Text

  /** The value of an `after` or `before` option. Every JavaScript value that is
      falsy and not a Date (undefined, null, false, 0, '') is `Unset`. */
  /** The integers a JavaScript number holds exactly: |n| at most 2^53. */
  type SafeInteger = n: int | -0x20_0000_0000_0000 <= n <= 0x20_0000_0000_0000

  datatype Bound =
    | Unset
    | DateAt(ms: int)        // a Date, as milliseconds since the epoch
    | Number(n: SafeInteger) // an integer number held exactly
    | Token(text: string)    // a literal token such as "2017/01/31"

  /** The options record. `important` and `read` are `None` whenever their
      value is not a boolean; an absent `labels` list is the empty list. */
  datatype SearchOptions = SearchOptions(
    after: Bound,
    before: Bound,
    important: Option<bool>,
    labels: seq<string>,
    read: Option<bool>)

  const NoOptions := SearchOptions(Unset, Unset, None, [], None)

  /** One clause of the query, in the source's own kinds. */
  datatype Clause =
    | After(value: string)
    | Before(value: string)
    | Important(on: bool)
    | Label(name: string)
    | Read(read: bool)

  /** Position of a clause kind in the fixed emission order. */
  function Rank(c: Clause): nat {
    match c
    case After(_) => 0
    case Before(_) => 1
    case Important(_) => 2
    case Label(_) => 3
    case Read(_) => 4
  }

  /** The text a bound contributes after `after:` or `before:`, if any: a Date
      gives its seconds (`getTime() / 1000`), any other truthy value is
      converted to a string, and Unset, 0 and '' give nothing. */
  function BoundText(b: Bound): Option<string> {
    match b
    case Unset => None
    case DateAt(ms) => Some(Text.SecondsText(ms))
    case Number(n) => if n == 0 then None else Some(Text.IntText(n))
    case Token(t) => if t == "" then None else Some(t)
  }

  function ClauseText(c: Clause): string {
    match c
    case After(v) => "after:" + v
    case Before(v) => "before:" + v
    case Important(on) => (if on then "" else "-") + "is:important"
    case Label(n) => "label:" + n
    case Read(r) => "is:" + (if r then "read" else "unread")
  }

  /** A clause list as query text: one space before each clause. */
  function Render(cs: seq<Clause>): string {
    if cs == [] then "" else " " + ClauseText(cs[0]) + Render(cs[1..])
  }

  function LabelClauses(labels: seq<string>): (cs: seq<Clause>)
    ensures |cs| == |labels| && forall i :: 0 <= i < |labels| ==> cs[i] == Label(labels[i])
  {
    seq(|labels|, i requires 0 <= i < |labels| => Label(labels[i]))
  }

  function AfterClauses(o: SearchOptions): seq<Clause> {
    match BoundText(o.after)
    case Some(v) => [After(v)]
    case None => []
  }

  function BeforeClauses(o: SearchOptions): seq<Clause> {
    match BoundText(o.before)
    case Some(v) => [Before(v)]
    case None => []
  }

  function ImportantClauses(o: SearchOptions): seq<Clause> {
    match o.important
    case Some(on) => [Important(on)]
    case None => []
  }

  function ReadClauses(o: SearchOptions): seq<Clause> {
    match o.read
    case Some(r) => [Read(r)]
    case None => []
  }

  /** The clauses the options call for: after, before, important, one per label, read. */
  function Clauses(o: SearchOptions): seq<Clause> {
    AfterClauses(o) + BeforeClauses(o) + ImportantClauses(o) + LabelClauses(o.labels) + ReadClauses(o)
  }

  /** The query that createSearchFilter returns for the options. */
  function FilterText(o: SearchOptions): string {
    Render(Clauses(o))
  }

  lemma {:induction false} RenderAppend(a: seq<Clause>, b: seq<Clause>)
    ensures Render(a + b) == Render(a) + Render(b)
    decreases |a|
  {
    if a == [] {
      assert a + b == b;
    } else {
      assert (a + b)[0] == a[0];
      assert (a + b)[1..] == a[1..] + b;
      RenderAppend(a[1..], b);
    }
  }

  /** createSearchFilter: appends the clauses to `search` one by one, looping over the labels. */
  method CreateSearchFilter(options: SearchOptions) returns (search: string)
    ensures search == FilterText(options)
  {
    search := "";

    // After
    var after := BoundText(options.after);
    if after.Some? {
      search := search + (" after:" + after.value);
    }

    assert search == OptionalText(" after:", after);

    // Before
    var before := BoundText(options.before);
    if before.Some? {
      search := search + (" before:" + before.value);
    }
    assert search == OptionalText(" after:", after) + OptionalText(" before:", before);

    // Important
    if options.important.Some? {
      search := search + (" " + (if options.important.value then "" else "-") + "is:important");
    }
    ImportantTextForm(options.important);
    ghost var head := search;
    assert head == OptionalText(" after:", after) + OptionalText(" before:", before) + ImportantText(options.important);

    // Labels
    var labels := options.labels;
    var l := 0;
    while l < |labels|
      invariant 0 <= l <= |labels|
      invariant search == head + LabelsText(labels[..l])
    {
      LabelsTextSnoc(labels, l);
      ConcatAssoc(head, LabelsText(labels[..l]), " label:" + labels[l]);
      search := search + (" label:" + labels[l]);
      l := l + 1;
    }
    assert labels[..l] == labels;

    // Read
    if options.read.Some? {
      search := search + (" is:" + (if options.read.value then "read" else "unread"));
    }
    ReadTextForm(options.read);
    FilterTextShape(options);
  }

  lemma ConcatAssoc(x: string, y: string, z: string)
    ensures (x + y) + z == x + (y + z)
  {
  }

  // ---------------------------------------------------------------- properties

  /** Clauses come out in the fixed order after, before, important, labels, read. */
  lemma ClausesOrdered(o: SearchOptions, i: nat, j: nat)
    requires i < j < |Clauses(o)|
    ensures Rank(Clauses(o)[i]) <= Rank(Clauses(o)[j])
  {
    RankAt(o, i);
    RankAt(o, j);
  }

  /** The rank of the k-th clause is that of the option group k falls in. */
  lemma RankAt(o: SearchOptions, k: nat)
    requires k < |Clauses(o)|
    ensures var a, b, m, ls := |AfterClauses(o)|, |BeforeClauses(o)|, |ImportantClauses(o)|, |o.labels|;
      Rank(Clauses(o)[k]) ==
        if k < a then 0 else if k < a + b then 1 else if k < a + b + m then 2
        else if k < a + b + m + ls then 3 else 4
  {
    var a, b, m := AfterClauses(o), BeforeClauses(o), ImportantClauses(o);
    var ls, r := LabelClauses(o.labels), ReadClauses(o);
    var cs := Clauses(o);
    var p1, p2, p3 := |a|, |a| + |b|, |a| + |b| + |m|;
    var p4 := p3 + |ls|;
    if k < p1 {
      assert cs[k] == a[k];
    } else if k < p2 {
      assert cs[k] == b[k - p1];
    } else if k < p3 {
      assert cs[k] == m[k - p2];
    } else if k < p4 {
      assert cs[k] == ls[k - p3];
    } else {
      assert cs[k] == r[k - p4];
    }
  }

  /** The text of an optional clause: its prefix (with the leading space) and value. */
  function OptionalText(prefix: string, v: Option<string>): string {
    if v.Some? then prefix + v.value else ""
  }

  function ImportantText(important: Option<bool>): string {
    match important
    case None => ""
    case Some(true) => " is:important"
    case Some(false) => " -is:important"
  }

  function LabelsText(labels: seq<string>): string {
    if labels == [] then "" else " label:" + labels[0] + LabelsText(labels[1..])
  }

  function ReadText(read: Option<bool>): string {
    match read
    case None => ""
    case Some(true) => " is:read"
    case Some(false) => " is:unread"
  }

  lemma {:induction false} LabelsRender(labels: seq<string>)
    ensures Render(LabelClauses(labels)) == LabelsText(labels)
    decreases |labels|
  {
    if labels != [] {
      assert LabelClauses(labels)[1..] == LabelClauses(labels[1..]);
      LabelsRender(labels[1..]);
    }
  }

  lemma PartRenders(o: SearchOptions)
    ensures Render(AfterClauses(o)) == OptionalText(" after:", BoundText(o.after))
    ensures Render(BeforeClauses(o)) == OptionalText(" before:", BoundText(o.before))
    ensures Render(ImportantClauses(o)) == ImportantText(o.important)
    ensures Render(ReadClauses(o)) == ReadText(o.read)
  {
    AfterRender(o);
    BeforeRender(o);
    SingleRender(ImportantClauses(o));
    SingleRender(ReadClauses(o));
    ImportantRender(o.important);
    ReadRender(o.read);
  }

  lemma AfterRender(o: SearchOptions)
    ensures Render(AfterClauses(o)) == OptionalText(" after:", BoundText(o.after))
  {
    SingleRender(AfterClauses(o));
    if BoundText(o.after).Some? {
      ConcatAssoc(" ", "after:", BoundText(o.after).value);
    }
  }

  lemma BeforeRender(o: SearchOptions)
    ensures Render(BeforeClauses(o)) == OptionalText(" before:", BoundText(o.before))
  {
    SingleRender(BeforeClauses(o));
    if BoundText(o.before).Some? {
      ConcatAssoc(" ", "before:", BoundText(o.before).value);
    }
  }

  lemma SingleRender(cs: seq<Clause>)
    requires |cs| <= 1
    ensures Render(cs) == if cs == [] then "" else " " + ClauseText(cs[0])
  {
    if cs != [] { assert cs[1..] == []; }
  }

  lemma ImportantRender(important: Option<bool>)
    ensures important.Some? ==> " " + ClauseText(Important(important.value)) == ImportantText(important)
  {
  }

  lemma ReadRender(read: Option<bool>)
    ensures read.Some? ==> " " + ClauseText(Read(read.value)) == ReadText(read)
  {
  }

  lemma ImportantTextForm(important: Option<bool>)
    ensures important.Some? ==>
      ImportantText(important) == " " + (if important.value then "" else "-") + "is:important"
  {
  }

  lemma ReadTextForm(read: Option<bool>)
    ensures read.Some? ==> ReadText(read) == " is:" + (if read.value then "read" else "unread")
  {
  }

  lemma {:induction false} LabelsTextSnoc(labels: seq<string>, l: nat)
    requires l < |labels|
    ensures LabelsText(labels[..l + 1]) == LabelsText(labels[..l]) + (" label:" + labels[l])
    decreases l
  {
    if l == 0 {
      assert labels[..1][1..] == [];
    } else {
      assert labels[..l + 1][1..] == labels[1..][..l];
      assert labels[..l][1..] == labels[1..][..l - 1];
      LabelsTextSnoc(labels[1..], l - 1);
    }
  }

  /** The token rules: `important` true/false gives ` is:important` / ` -is:important`,
      each label gives ` label:<l>` in list order, `read` gives ` is:read` / ` is:unread`,
      and an option that is unset contributes nothing. */
  lemma FilterTextShape(o: SearchOptions)
    ensures FilterText(o) ==
      OptionalText(" after:", BoundText(o.after))
      + OptionalText(" before:", BoundText(o.before))
      + ImportantText(o.important)
      + LabelsText(o.labels)
      + ReadText(o.read)
  {
    var a, b, m := AfterClauses(o), BeforeClauses(o), ImportantClauses(o);
    var ls, r := LabelClauses(o.labels), ReadClauses(o);
    RenderAppend(a, b);
    RenderAppend(a + b, m);
    RenderAppend(a + b + m, ls);
    RenderAppend(a + b + m + ls, r);
    PartRenders(o);
    LabelsRender(o.labels);
  }

  /** The query is empty exactly when no option contributes a clause; otherwise it
      starts with the space that prefixes every clause. */
  lemma FilterEmptyIff(o: SearchOptions)
    ensures FilterText(o) == "" <==>
      BoundText(o.after).None? && BoundText(o.before).None? && o.important.None?
      && o.labels == [] && o.read.None?
    ensures FilterText(o) != "" ==> FilterText(o)[0] == ' '
  {
    var cs := Clauses(o);
    if cs == [] {
      assert LabelClauses(o.labels) == [];
    } else {
      assert FilterText(o) == " " + ClauseText(cs[0]) + Render(cs[1..]);
    }
  }

  /** Empty options give the empty query. */
  lemma NoOptionsGiveEmptyFilter()
    ensures FilterText(NoOptions) == ""
  {
    FilterEmptyIff(NoOptions);
  }
}
