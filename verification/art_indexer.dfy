/** `Classes/ArtIndexerBot.js`: the project index (name key to bot), the
    birthday index ("MM-DD" to bots), the dispatch of `#` messages, the
    bounded random sampler and the birthday year filter. Timers, Discord and
    the bots' own message handling are outside the model; `deburr` is an
    abstract function parameter. */
module ArtIndexer {
  import opened Common
  import opened Strings
  import opened ArtBlocksApi
  import opened Pagination

  // ---------------------------------------------------------------------
  // Project keys

  /** `deburr(name).toLowerCase()` */
  function Folded(deburr: string -> string, name: string): string {
    ToLower(deburr(name))
  }

  /** `toProjectKey`: the ASCII letters and digits of the folded name, in
      order; when it has none, the folded name without its whitespace. */
  function ToProjectKey(deburr: string -> string, name: string): string {
    var folded := Folded(deburr, name);
    var stripped := Filter(IsAlnum, folded);
    if stripped == [] then Filter(NotSpace, folded) else stripped
  }

  /** What a key is made of: no upper-case letter and no whitespace; empty
      exactly when the folded name is all whitespace; non-empty and free of
      other characters when the name has a letter or digit, and free of
      letters and digits otherwise. */
  lemma ProjectKeyShape(deburr: string -> string, name: string)
    ensures var key := ToProjectKey(deburr, name);
      var folded := Folded(deburr, name);
      && (forall i :: 0 <= i < |key| ==> !IsUpper(key[i]) && !IsSpace(key[i]))
      && (key == [] <==> forall i :: 0 <= i < |folded| ==> IsSpace(folded[i]))
      && (HasAlnum(folded) ==> key == Filter(IsAlnum, folded) && key != [])
      && (!HasAlnum(folded) ==> key == Filter(NotSpace, folded) && !HasAlnum(key))
  {
    var folded := Folded(deburr, name);
    FilterEmpty(IsAlnum, folded);
    FilterEmpty(NotSpace, folded);
    assert forall i :: 0 <= i < |folded| ==> !IsUpper(folded[i]);
  }

  /** A key is its own key: normalising the text a user types for a
      project's key finds that key again (given `deburr` leaves the
      already-folded key alone). */
  lemma ProjectKeyIsStable(deburr: string -> string, name: string)
    requires deburr(ToProjectKey(deburr, name)) == ToProjectKey(deburr, name)
    ensures ToProjectKey(deburr, ToProjectKey(deburr, name)) == ToProjectKey(deburr, name)
  {
    var key := ToProjectKey(deburr, name);
    ProjectKeyShape(deburr, name);
    ProjectKeyShape(deburr, key);
    assert Folded(deburr, key) == key;
    if HasAlnum(Folded(deburr, name)) {
      assert IsAlnum(key[0]);
      FilterKeepsAll(IsAlnum, key);
    } else {
      FilterDropsAll(IsAlnum, key);
      FilterKeepsAll(NotSpace, key);
    }
  }

  /** Case and punctuation are dropped from a name with letters or digits. */
  lemma ProjectKeyOfTitle(deburr: string -> string)
    requires deburr("Ringers #2") == "Ringers #2"
    ensures ToProjectKey(deburr, "Ringers #2") == "ringers2"
  {
    var folded := Folded(deburr, "Ringers #2");
    LowerOfTitle();
    AlnumOfTitle();
    assert IsAlnum(folded[0]);
  }

  lemma LowerOfTitle()
    ensures ToLower("Ringers #2") == "ringers #2"
  {
    var s := "Ringers #2";
    var folded := ToLower(s);
    assert folded[0] == 'r';
    forall i | 1 <= i < |s|
      ensures folded[i] == s[i]
    {
      assert !IsUpper(s[i]);
    }
    assert folded == "r" + s[1..];
  }

  lemma AlnumOfTitle()
    ensures Filter(IsAlnum, "ringers #2") == "ringers2"
  {
    AlnumAroundGap("ringers", " #", "2");
    assert "ringers" + " #" + "2" == "ringers #2";
    assert "ringers" + "2" == "ringers2";
  }

  lemma AlnumAroundGap(a: string, b: string, c: string)
    requires forall i :: 0 <= i < |a| ==> IsAlnum(a[i])
    requires forall i :: 0 <= i < |b| ==> !IsAlnum(b[i])
    requires forall i :: 0 <= i < |c| ==> IsAlnum(c[i])
    ensures Filter(IsAlnum, a + b + c) == a + c
  {
    var ab := a + b;
    FilterKeepsAll(IsAlnum, a);
    FilterDropsAll(IsAlnum, b);
    FilterAppend(IsAlnum, a, b);
    assert Filter(IsAlnum, ab) == a;
    FilterKeepsAll(IsAlnum, c);
    FilterAppend(IsAlnum, ab, c);
  }

  /** The random-project request `#?` survives as its own key. */
  lemma ProjectKeyOfRandomRequest(deburr: string -> string)
    requires deburr("#?") == "#?"
    ensures ToProjectKey(deburr, "#?") == "#?"
  {
    FilterDropsAll(IsAlnum, "#?");
    FilterKeepsAll(NotSpace, "#?");
  }

  // ---------------------------------------------------------------------
  // The index

  /** The fields the indexer gives a `ProjectBot`; `startTime` keeps the
      truthy birthday string the bot's start date is parsed from. */
  datatype Bot = Bot(
    projectNumber: nat,
    coreContract: string,
    editionSize: int,
    projectName: string,
    projectActive: bool,
    startTime: Option<string>)

  /** `this.projects` and `this.birthdays`. */
  datatype Index = Index(projects: map<string, Bot>, birthdays: map<string, seq<Bot>>)

  /** The constructor's `{}` and `{}`. */
  const Empty: Index := Index(map[], map[])

  /** `${project.contract.id}-${project.projectId}` */
  function BirthdayKey(p: Project): string {
    p.contract + "-" + NatToDecimal(p.projectId)
  }

  /** The project's entry of the birthday map when it is truthy (present,
      not null, not empty). */
  function BirthdayOf(bdays: map<string, Option<string>>, p: Project): Option<string> {
    var k := BirthdayKey(p);
    if k in bdays && bdays[k].Some? && bdays[k].value != "" then bdays[k] else None
  }

  /** `iso.split('T')[0].split('-')` */
  function DateParts(iso: string): seq<string> {
    Split(Field(Split(iso, 'T'), 0), '-')
  }

  /** `month + '-' + day` of a date string. */
  function MonthDay(iso: string): string {
    Field(DateParts(iso), 1) + "-" + Field(DateParts(iso), 2)
  }

  lemma SplitHead(a: string, sep: char, b: string)
    requires sep !in a
    ensures Split(a + [sep] + b, sep)[0] == a
  {
    var s := a + [sep] + b;
    assert s[|a|] == sep;
    assert s[..|a|] == a;
    assert IndexOf(s, sep) == |a|;
  }

  /** The birthday key of an ISO date-time is its month and day. */
  lemma MonthDayOfIso(y: string, m: string, d: string, rest: string)
    requires '-' !in y && '-' !in m && '-' !in d
    requires 'T' !in y && 'T' !in m && 'T' !in d
    ensures MonthDay(y + "-" + m + "-" + d + "T" + rest) == m + "-" + d
    ensures Field(DateParts(y + "-" + m + "-" + d + "T" + rest), 0) == y
  {
    var date := y + "-" + m + "-" + d;
    SplitThree(y, m, d, '-');
    assert 'T' !in date;
    assert y + "-" + m + "-" + d + "T" + rest == date + ['T'] + rest;
    SplitHead(date, 'T', rest);
  }

  function BotOf(p: Project, bdays: map<string, Option<string>>): Bot {
    Bot(p.projectId, p.contract, p.invocations, p.name, p.active, BirthdayOf(bdays, p))
  }

  /** `this.birthdays[d] ?? []` */
  function ListAt(m: map<string, seq<Bot>>, d: string): seq<Bot> {
    if d in m then m[d] else []
  }

  /** One iteration of the loop in `buildProjectBots`. */
  function Insert(idx: Index, p: Project, bdays: map<string, Option<string>>, deburr: string -> string): Index {
    var bot := BotOf(p, bdays);
    var projects := idx.projects[ToProjectKey(deburr, p.name) := bot];
    match bot.startTime
    case None => Index(projects, idx.birthdays)
    case Some(b) =>
      var d := MonthDay(b);
      Index(projects, idx.birthdays[d := ListAt(idx.birthdays, d) + [bot]])
  }

  /** The loop over the fetched list, which stops at the first `undefined`
      element: reading `project.projectId` of it throws, and the `catch`
      keeps what the earlier iterations wrote. */
  function BuildFrom(idx: Index, items: seq<Option<Project>>, bdays: map<string, Option<string>>, deburr: string -> string): (r: Index)
    ensures idx.projects.Keys <= r.projects.Keys
    ensures forall d :: d in idx.birthdays ==> d in r.birthdays && idx.birthdays[d] <= r.birthdays[d]
    decreases |items|
  {
    if items == [] then idx
    else
      match items[0]
      case None => idx
      case Some(p) => BuildFrom(Insert(idx, p, bdays, deburr), items[1..], bdays, deburr)
  }

  /** `buildProjectBots`: the fetched list is folded into both maps in
      place. A list that is not an array (`undefined`) throws before the
      loop and nothing changes. Keys are only ever added and birthday lists
      only ever extended. */
  function BuildProjectBots(idx: Index, fetched: Option<seq<Option<Project>>>, bdays: map<string, Option<string>>, deburr: string -> string): (r: Index)
    ensures fetched.None? ==> r == idx
    ensures idx.projects.Keys <= r.projects.Keys
    ensures forall d :: d in idx.birthdays ==> d in r.birthdays && idx.birthdays[d] <= r.birthdays[d]
  {
    match fetched
    case None => idx
    case Some(items) => BuildFrom(idx, items, bdays, deburr)
  }

  /** The projects the loop reaches: those before the first `undefined` element. */
  function Defined(items: seq<Option<Project>>): (ps: seq<Project>)
    ensures |ps| <= |items|
    ensures forall i :: 0 <= i < |ps| ==> items[i] == Some(ps[i])
    ensures |ps| < |items| ==> items[|ps|].None?
    decreases |items|
  {
    if items == [] || items[0].None? then [] else [items[0].value] + Defined(items[1..])
  }

  lemma {:induction false} DefinedWrapThen(xs: seq<Project>, rest: seq<Option<Project>>)
    ensures Defined(Wrap(xs) + rest) == xs + Defined(rest)
    decreases |xs|
  {
    if xs == [] {
      assert Wrap(xs) + rest == rest;
    } else {
      var tail := Wrap(xs[1..]) + rest;
      calc {
        Defined(Wrap(xs) + rest);
        { WrapCons(xs); assert Wrap(xs) + rest == [Some(xs[0])] + tail; }
        Defined([Some(xs[0])] + tail);
        { DefinedCons(xs[0], tail); }
        [xs[0]] + Defined(tail);
        { DefinedWrapThen(xs[1..], rest); }
        [xs[0]] + (xs[1..] + Defined(rest));
        { assert xs == [xs[0]] + xs[1..]; }
        xs + Defined(rest);
      }
    }
  }

  lemma WrapCons(xs: seq<Project>)
    requires xs != []
    ensures Wrap(xs) == [Some(xs[0])] + Wrap(xs[1..])
  {
  }

  lemma DefinedCons(x: Project, tail: seq<Option<Project>>)
    ensures Defined([Some(x)] + tail) == [x] + Defined(tail)
  {
    assert ([Some(x)] + tail)[1..] == tail;
  }

  /** The projects a rebuild reaches in a flattened per-contract fetch: the
      rows of the contracts before the first one whose fetch threw. */
  lemma DefinedUpToFailure(cs: seq<ContractData>, fetch: ContractData -> Option<seq<Project>>, rows: ContractData -> seq<Project>, k: nat)
    requires k <= |cs|
    requires forall j :: 0 <= j < k ==> fetch(cs[j]) == Some(rows(cs[j]))
    requires k < |cs| ==> fetch(cs[k]).None?
    ensures Defined(Flat(PerContract(cs, fetch))) == AllRows(cs[..k], rows)
  {
    assert cs == cs[..k] + cs[k..];
    PerContractAppend(cs[..k], cs[k..], fetch);
    FlatAppend(PerContract(cs[..k], fetch), PerContract(cs[k..], fetch));
    FlatOfFetched(PerContract(cs[..k], fetch));
    SuccessesOfAll(cs[..k], fetch, rows);
    var tail := Flat(PerContract(cs[k..], fetch));
    if k < |cs| {
      assert PerContract(cs[k..], fetch)[0] == None;
      assert tail[0] == None;
    } else {
      assert tail == [];
    }
    DefinedWrapThen(AllRows(cs[..k], rows), tail);
  }

  /** A rebuild from `getContractsProjects` indexes exactly the projects of
      the contracts before the first one whose fetch threw, in order; the
      contracts after it are never reached. */
  lemma RebuildStopsAtFailedContract(cs: seq<ContractData>, k: nat)
    requires k <= |cs|
    requires forall j :: 0 <= j < k ==> AnswersAll(Query(cs[j], AnyProject))
    requires k < |cs| ==> !AnswersAll(Query(cs[k], AnyProject))
    ensures Defined(ContractsProjects(cs)) == AllRows(cs[..k], ProjectsOf)
  {
    DefinedUpToFailure(cs, ContractProjects, ProjectsOf, k);
  }

  /** The same for the open-project list: its defined prefix is the open
      projects of the contracts before the first failed one. */
  lemma OpenListStopsAtFailedContract(cs: seq<ContractData>, k: nat)
    requires k <= |cs|
    requires forall j :: 0 <= j < k ==> AnswersAll(Query(cs[j], IsOpen))
    requires k < |cs| ==> !AnswersAll(Query(cs[k], IsOpen))
    ensures Defined(ContractsOpenProjects(cs)) == AllRows(cs[..k], OpenProjectsOf)
  {
    DefinedUpToFailure(cs, ContractOpenProjects, OpenProjectsOf, k);
  }

  /** The last project with the given key. */
  function LastWithKey(ps: seq<Project>, k: string, deburr: string -> string): (r: Option<Project>)
    ensures r.None? <==> forall i :: 0 <= i < |ps| ==> ToProjectKey(deburr, ps[i].name) != k
    ensures r.Some? ==> exists i :: (0 <= i < |ps| && ps[i] == r.value && ToProjectKey(deburr, r.value.name) == k
      && forall j :: i < j < |ps| ==> ToProjectKey(deburr, ps[j].name) != k)
    decreases |ps|
  {
    if ps == [] then None
    else
      var rest := LastWithKey(ps[1..], k, deburr);
      if rest.Some? then
        ghost var i :| 0 <= i < |ps[1..]| && ps[1..][i] == rest.value && ToProjectKey(deburr, rest.value.name) == k
          && forall j :: i < j < |ps[1..]| ==> ToProjectKey(deburr, ps[1..][j].name) != k;
        assert ps[i + 1] == rest.value;
        rest
      else if ToProjectKey(deburr, ps[0].name) == k then Some(ps[0])
      else None
  }

  /** After a rebuild, every key produced holds the bot of the LAST project
      (in fetch order) with that key, and every other key is untouched. */
  lemma BuildProjectsMap(idx: Index, items: seq<Option<Project>>, bdays: map<string, Option<string>>, deburr: string -> string)
    ensures forall k :: LastWithKey(Defined(items), k, deburr).Some? ==>
      k in BuildFrom(idx, items, bdays, deburr).projects
      && BuildFrom(idx, items, bdays, deburr).projects[k] == BotOf(LastWithKey(Defined(items), k, deburr).value, bdays)
    ensures forall k :: LastWithKey(Defined(items), k, deburr).None? ==>
      (k in BuildFrom(idx, items, bdays, deburr).projects <==> k in idx.projects)
      && (k in idx.projects ==> BuildFrom(idx, items, bdays, deburr).projects[k] == idx.projects[k])
  {
    forall k {
      BuildKey(idx, items, bdays, deburr, k);
    }
  }

  /** The entry of one key after a rebuild. */
  lemma {:induction false} BuildKey(idx: Index, items: seq<Option<Project>>, bdays: map<string, Option<string>>, deburr: string -> string, k: string)
    ensures var r := BuildFrom(idx, items, bdays, deburr).projects;
      var last := LastWithKey(Defined(items), k, deburr);
      && (last.Some? ==> k in r && r[k] == BotOf(last.value, bdays))
      && (last.None? ==> (k in r <==> k in idx.projects) && (k in idx.projects ==> r[k] == idx.projects[k]))
    decreases |items|
  {
    if items != [] && items[0].Some? {
      var p := items[0].value;
      var next := Insert(idx, p, bdays, deburr);
      assert BuildFrom(idx, items, bdays, deburr) == BuildFrom(next, items[1..], bdays, deburr);
      assert next.projects == idx.projects[ToProjectKey(deburr, p.name) := BotOf(p, bdays)];
      LastWithKeyCons(p, Defined(items[1..]), k, deburr);
      assert Defined(items) == [p] + Defined(items[1..]);
      BuildKey(next, items[1..], bdays, deburr, k);
    }
  }

  /** The last project with a key in `[p] + ps` is the last one in `ps`, or
      else `p` when it has the key. */
  lemma LastWithKeyCons(p: Project, ps: seq<Project>, k: string, deburr: string -> string)
    ensures LastWithKey([p] + ps, k, deburr)
      == if LastWithKey(ps, k, deburr).Some? then LastWithKey(ps, k, deburr)
         else if ToProjectKey(deburr, p.name) == k then Some(p)
         else None
  {
    assert ([p] + ps)[1..] == ps;
  }

  /** The bots of the projects with a truthy birthday on day `d`, in order. */
  function BirthdayBots(ps: seq<Project>, d: string, bdays: map<string, Option<string>>): seq<Bot>
    decreases |ps|
  {
    if ps == [] then []
    else
      var b := BotOf(ps[0], bdays);
      (if b.startTime.Some? && MonthDay(b.startTime.value) == d then [b] else []) + BirthdayBots(ps[1..], d, bdays)
  }

  /** A rebuild appends, to the list already held for each day, the bots of
      the projects born that day in fetch order; other days are untouched. */
  lemma BuildBirthdays(idx: Index, items: seq<Option<Project>>, bdays: map<string, Option<string>>, deburr: string -> string)
    ensures forall d :: (ListAt(BuildFrom(idx, items, bdays, deburr).birthdays, d)
      == ListAt(idx.birthdays, d) + BirthdayBots(Defined(items), d, bdays))
    ensures forall d :: (d in BuildFrom(idx, items, bdays, deburr).birthdays
      <==> d in idx.birthdays || BirthdayBots(Defined(items), d, bdays) != [])
  {
    forall d {
      BuildDay(idx, items, bdays, deburr, d);
    }
  }

  /** The bot a project adds to day `d`, if any. */
  function DayEntry(p: Project, d: string, bdays: map<string, Option<string>>): seq<Bot> {
    var b := BotOf(p, bdays);
    if b.startTime.Some? && MonthDay(b.startTime.value) == d then [b] else []
  }

  lemma InsertDay(idx: Index, p: Project, bdays: map<string, Option<string>>, deburr: string -> string, d: string)
    ensures ListAt(Insert(idx, p, bdays, deburr).birthdays, d) == ListAt(idx.birthdays, d) + DayEntry(p, d, bdays)
    ensures d in Insert(idx, p, bdays, deburr).birthdays <==> d in idx.birthdays || DayEntry(p, d, bdays) != []
  {
  }

  /** The list of one day after a rebuild. */
  lemma {:induction false} BuildDay(idx: Index, items: seq<Option<Project>>, bdays: map<string, Option<string>>, deburr: string -> string, d: string)
    ensures ListAt(BuildFrom(idx, items, bdays, deburr).birthdays, d) == ListAt(idx.birthdays, d) + BirthdayBots(Defined(items), d, bdays)
    ensures d in BuildFrom(idx, items, bdays, deburr).birthdays <==> d in idx.birthdays || BirthdayBots(Defined(items), d, bdays) != []
    decreases |items|
  {
    if items != [] && items[0].Some? {
      var p := items[0].value;
      var ps := Defined(items);
      var next := Insert(idx, p, bdays, deburr);
      assert ps[1..] == Defined(items[1..]);
      assert BirthdayBots(ps, d, bdays) == DayEntry(p, d, bdays) + BirthdayBots(Defined(items[1..]), d, bdays);
      InsertDay(idx, p, bdays, deburr, d);
      BuildDay(next, items[1..], bdays, deburr, d);
      var before, entry, rest := ListAt(idx.birthdays, d), DayEntry(p, d, bdays), BirthdayBots(Defined(items[1..]), d, bdays);
      AppendAssoc(before, entry, rest);
    } else {
      assert Defined(items) == [];
    }
  }

  /** A throw at the first `undefined` element leaves exactly the update of
      the projects before it. */
  lemma {:induction false} BuildStopsAtUndefined(idx: Index, items: seq<Option<Project>>, i: nat, bdays: map<string, Option<string>>, deburr: string -> string)
    requires i < |items| && items[i].None?
    ensures BuildFrom(idx, items, bdays, deburr) == BuildFrom(idx, items[..i], bdays, deburr)
    decreases i
  {
    if i > 0 && items[0].Some? {
      assert items[1..][..i - 1] == items[..i][1..];
      BuildStopsAtUndefined(Insert(idx, items[0].value, bdays, deburr), items[1..], i - 1, bdays, deburr);
    }
  }

  // ---------------------------------------------------------------------
  // The corrected rebuild (see Findings in README.md)

  /** The rebuild as evidently intended: the birthday index is rebuilt from
      empty on each pass that reaches the loop, so it holds each project of
      the current fetch once. */
  function Rebuild(idx: Index, fetched: Option<seq<Option<Project>>>, bdays: map<string, Option<string>>, deburr: string -> string): (r: Index)
    ensures fetched.None? ==> r == idx
    ensures fetched.Some? ==> forall d :: ListAt(r.birthdays, d) == BirthdayBots(Defined(fetched.value), d, bdays)
  {
    match fetched
    case None => idx
    case Some(items) =>
      BuildBirthdays(Index(idx.projects, map[]), items, bdays, deburr);
      BuildFrom(Index(idx.projects, map[]), items, bdays, deburr)
  }

  /** Rebuilding twice from the same fetch gives the same index as
      rebuilding once. */
  lemma RebuildIsIdempotent(idx: Index, fetched: Option<seq<Option<Project>>>, bdays: map<string, Option<string>>, deburr: string -> string)
    ensures Rebuild(Rebuild(idx, fetched, bdays, deburr), fetched, bdays, deburr) == Rebuild(idx, fetched, bdays, deburr)
  {
    if fetched.Some? {
      var items := fetched.value;
      var once := BuildFrom(Index(idx.projects, map[]), items, bdays, deburr);
      BirthdaysIgnoreProjects(idx.projects, once.projects, map[], items, bdays, deburr);
      ProjectsAbsorb(Index(idx.projects, map[]), map[], items, bdays, deburr);
    }
  }

  /** The birthday lists a build produces do not depend on the projects map. */
  lemma {:induction false} BirthdaysIgnoreProjects(p: map<string, Bot>, q: map<string, Bot>, b: map<string, seq<Bot>>,
                                                   items: seq<Option<Project>>, bdays: map<string, Option<string>>, deburr: string -> string)
    ensures BuildFrom(Index(p, b), items, bdays, deburr).birthdays == BuildFrom(Index(q, b), items, bdays, deburr).birthdays
    decreases |items|
  {
    if items != [] && items[0].Some? {
      var pr := items[0].value;
      var ip := Insert(Index(p, b), pr, bdays, deburr);
      var iq := Insert(Index(q, b), pr, bdays, deburr);
      assert ip.birthdays == iq.birthdays;
      assert ip == Index(ip.projects, ip.birthdays);
      assert iq == Index(iq.projects, ip.birthdays);
      BirthdaysIgnoreProjects(ip.projects, iq.projects, ip.birthdays, items[1..], bdays, deburr);
    }
  }

  /** The projects map a build produces does not depend on the birthday lists. */
  lemma {:induction false} ProjectsIgnoreBirthdays(p: map<string, Bot>, b: map<string, seq<Bot>>, c: map<string, seq<Bot>>,
                                                   items: seq<Option<Project>>, bdays: map<string, Option<string>>, deburr: string -> string)
    ensures BuildFrom(Index(p, b), items, bdays, deburr).projects == BuildFrom(Index(p, c), items, bdays, deburr).projects
    decreases |items|
  {
    if items != [] && items[0].Some? {
      var pr := items[0].value;
      var ib := Insert(Index(p, b), pr, bdays, deburr);
      var ic := Insert(Index(p, c), pr, bdays, deburr);
      assert ib.projects == ic.projects;
      assert ib == Index(ib.projects, ib.birthdays);
      assert ic == Index(ib.projects, ic.birthdays);
      ProjectsIgnoreBirthdays(ib.projects, ib.birthdays, ic.birthdays, items[1..], bdays, deburr);
    }
  }

  /** Building over the result of the same build changes no project. */
  lemma ProjectsAbsorb(idx: Index, b: map<string, seq<Bot>>, items: seq<Option<Project>>, bdays: map<string, Option<string>>, deburr: string -> string)
    ensures BuildFrom(Index(BuildFrom(idx, items, bdays, deburr).projects, b), items, bdays, deburr).projects
      == BuildFrom(idx, items, bdays, deburr).projects
  {
    var once := BuildFrom(idx, items, bdays, deburr).projects;
    var again := Index(once, b);
    var twice := BuildFrom(again, items, bdays, deburr).projects;
    forall k
      ensures k in twice <==> k in once
      ensures k in twice ==> twice[k] == once[k]
    {
      BuildKey(idx, items, bdays, deburr, k);
      BuildKey(again, items, bdays, deburr, k);
    }
    assert twice == once;
  }

  /** As written, a second rebuild from the same fetch appends the same bot
      to its day a second time. */
  lemma RebuildDuplicatesBirthdays(idx: Index, p: Project, bdays: map<string, Option<string>>, deburr: string -> string)
    requires BirthdayOf(bdays, p).Some?
    requires MonthDay(BirthdayOf(bdays, p).value) !in idx.birthdays
    ensures var d := MonthDay(BirthdayOf(bdays, p).value);
      var once := BuildProjectBots(idx, Some([Some(p)]), bdays, deburr);
      var twice := BuildProjectBots(once, Some([Some(p)]), bdays, deburr);
      && once.birthdays[d] == [BotOf(p, bdays)]
      && twice.birthdays[d] == [BotOf(p, bdays), BotOf(p, bdays)]
      && Rebuild(Rebuild(idx, Some([Some(p)]), bdays, deburr), Some([Some(p)]), bdays, deburr).birthdays[d] == [BotOf(p, bdays)]
  {
    var items := [Some(p)];
    assert items[1..] == [];
    assert forall i: Index :: BuildFrom(i, items, bdays, deburr) == Insert(i, p, bdays, deburr) by {
      forall i: Index
        ensures BuildFrom(i, items, bdays, deburr) == Insert(i, p, bdays, deburr)
      {
        assert BuildFrom(i, items, bdays, deburr) == BuildFrom(Insert(i, p, bdays, deburr), items[1..], bdays, deburr);
      }
    }
  }

  /** The correction touches only the birthday index: lookups see the same
      projects map as after the rebuild as written. */
  lemma RebuildKeepsLookups(idx: Index, fetched: Option<seq<Option<Project>>>, bdays: map<string, Option<string>>, deburr: string -> string)
    ensures Rebuild(idx, fetched, bdays, deburr).projects == BuildProjectBots(idx, fetched, bdays, deburr).projects
  {
    if fetched.Some? {
      ProjectsIgnoreBirthdays(idx.projects, map[], idx.birthdays, fetched.value, bdays, deburr);
    }
  }

  /** As written, the birthday routine after a second rebuild greets the
      same project twice on its day. */
  lemma DuplicateGreetings(idx: Index, p: Project, bdays: map<string, Option<string>>, deburr: string -> string, nowIso: string, yearOf: string -> string)
    requires BirthdayOf(bdays, p).Some?
    requires MonthDay(BirthdayOf(bdays, p).value) !in idx.birthdays
    requires MonthDay(nowIso) == MonthDay(BirthdayOf(bdays, p).value)
    requires yearOf(BirthdayOf(bdays, p).value) != Field(DateParts(nowIso), 0)
    ensures var once := BuildProjectBots(idx, Some([Some(p)]), bdays, deburr);
      var twice := BuildProjectBots(once, Some([Some(p)]), bdays, deburr);
      BirthdayGreetings(twice, nowIso, yearOf) == [BotOf(p, bdays), BotOf(p, bdays)]
  {
    RebuildDuplicatesBirthdays(idx, p, bdays, deburr);
    var b := BotOf(p, bdays);
    FilterKeepsAll(Celebrates(Field(DateParts(nowIso), 0), yearOf), [b, b]);
  }

  // ---------------------------------------------------------------------
  // Message dispatch

  /** What `handleNumberMessage` does with a message. */
  datatype Dispatch =
    | Rejected                                  // "Invalid format" reply
    | RandomProject                             // `#?`
    | RandomOpenProject                         // `open`
    | Lookup(key: string, bot: Option<Bot>)     // `this.projects[key]`, handled when present
    | Crashed(key: string)                      // an inherited member: truthy, and calling it throws

  /** The members every plain object inherits from `Object.prototype`.
      `this.projects[key]` finds one of them when the index has no own entry
      for `key`. */
  const ObjectMembers: set<string> := {
    "constructor", "hasOwnProperty", "isPrototypeOf", "propertyIsEnumerable",
    "toString", "toLocaleString", "valueOf", "__proto__",
    "__defineGetter__", "__defineSetter__", "__lookupGetter__", "__lookupSetter__"
  }

  /** `content.substr(content.indexOf(' ') + 1).replace('?details', '')` */
  function QueryText(content: string): string {
    ReplaceFirst(content[IndexOf(content, ' ') + 1..], "?details")
  }

  /** `handleNumberMessage`: a message of at most one UTF-16 unit is
      rejected; otherwise the key of the text after the first space (with
      the first `?details` removed) selects the random sampler (`#?`), the
      open-project sampler (`open`), or the index entry. An inherited
      member of the index object is truthy but is no bot, so handing it the
      message throws. */
  function HandleNumberMessage(idx: Index, content: string, deburr: string -> string): (d: Dispatch)
    ensures d.Rejected? <==> Utf16Length(content) <= 1
    ensures !d.Rejected? ==> var key := ToProjectKey(deburr, QueryText(content));
      && (d.RandomProject? <==> key == "#?")
      && (d.RandomOpenProject? <==> key == "open")
      && (d.Crashed? <==> key != "#?" && key != "open" && key !in idx.projects && key in ObjectMembers)
      && ((d.Lookup? || d.Crashed?) ==> d.key == key)
    ensures d.Lookup? ==> d.key != "#?" && d.key != "open"
    ensures d.Lookup? ==> (d.bot.Some? <==> d.key in idx.projects) && (d.bot.Some? ==> d.bot.value == idx.projects[d.key])
  {
    if Utf16Length(content) <= 1 then Rejected
    else
      var key := ToProjectKey(deburr, QueryText(content));
      if key == "#?" then RandomProject
      else if key == "open" then RandomOpenProject
      else if key !in idx.projects && key in ObjectMembers then Crashed(key)
      else Lookup(key, Get(idx.projects, key))
  }

  /** `#` followed by a word of lower-case letters and digits has the word
      as its key. */
  lemma ProjectKeyOfHashWord(deburr: string -> string, w: string)
    requires w != [] && forall i :: 0 <= i < |w| ==> IsAlnum(w[i]) && !IsUpper(w[i])
    requires deburr("#" + w) == "#" + w
    ensures ToProjectKey(deburr, "#" + w) == w
  {
    var s := "#" + w;
    assert forall i :: 0 <= i < |s| ==> !IsUpper(s[i]) by {
      forall i | 0 <= i < |s|
        ensures !IsUpper(s[i])
      {
        if i > 0 {
          assert s[i] == w[i - 1];
        }
      }
    }
    assert Folded(deburr, s) == s;
    FilterDropsAll(IsAlnum, "#");
    FilterKeepsAll(IsAlnum, w);
    FilterAppend(IsAlnum, "#", w);
  }

  /** A text holding no `?` contains no `?details`. */
  lemma NoDetailsWithoutMark(s: string)
    requires '?' !in s
    ensures !Contains(s, "?details")
  {
    forall i | 0 <= i <= |s|
      ensures !OccursAt(s, "?details", i)
    {
      if i + 8 <= |s| {
        assert s[i..i + 8][0] == s[i];
      }
    }
  }

  /** `#?` alone asks for a random project. */
  lemma RandomRequest(idx: Index, deburr: string -> string)
    requires deburr("#?") == "#?"
    ensures HandleNumberMessage(idx, "#?", deburr) == RandomProject
  {
    assert IndexOf("#?", ' ') == -1;
    assert !Contains("#?", "?details");
    ProjectKeyOfRandomRequest(deburr);
  }

  /** `#<word>`, for a word of lower-case letters and digits, queries the
      word itself. */
  lemma HashWordQueriesWord(idx: Index, deburr: string -> string, w: string)
    requires w != [] && forall i :: 0 <= i < |w| ==> IsAlnum(w[i]) && !IsUpper(w[i])
    requires deburr("#" + w) == "#" + w
    ensures var d := HandleNumberMessage(idx, "#" + w, deburr);
      !d.Rejected? && ToProjectKey(deburr, QueryText("#" + w)) == w
    ensures HandleNumberMessage(idx, "#" + w, deburr)
      == if w == "open" then RandomOpenProject
         else if w !in idx.projects && w in ObjectMembers then Crashed(w)
         else Lookup(w, Get(idx.projects, w))
  {
    var content := "#" + w;
    assert forall i :: 0 <= i < |content| ==> content[i] == '#' || IsAlnum(content[i]) by {
      forall i | 0 <= i < |content|
        ensures content[i] == '#' || IsAlnum(content[i])
      {
        if i > 0 {
          assert content[i] == w[i - 1];
        }
      }
    }
    assert ' ' !in content && '?' !in content;
    assert content[0..] == content;
    NoDetailsWithoutMark(content);
    ProjectKeyOfHashWord(deburr, w);
    assert w != "#?" by {
      assert IsAlnum(w[0]);
    }
  }

  /** `#open` asks for a random open project. */
  lemma OpenRequest(idx: Index, deburr: string -> string)
    requires deburr("#open") == "#open"
    ensures HandleNumberMessage(idx, "#open", deburr) == RandomOpenProject
  {
    assert "#" + "open" == "#open";
    HashWordQueriesWord(idx, deburr, "open");
  }

  /** `#constructor`, when no project has that key, reaches the inherited
      `Object` constructor: truthy, so the handler call throws. */
  lemma InheritedKeyCrashes(idx: Index, deburr: string -> string)
    requires "constructor" !in idx.projects
    requires deburr("#constructor") == "#constructor"
    ensures HandleNumberMessage(idx, "#constructor", deburr) == Crashed("constructor")
  {
    ConstructorIsInheritedWord();
    HashWordQueriesWord(idx, deburr, "constructor");
  }

  lemma ConstructorIsInheritedWord()
    ensures forall i :: 0 <= i < |"constructor"| ==> IsAlnum("constructor"[i]) && !IsUpper("constructor"[i])
    ensures "#" + "constructor" == "#constructor"
    ensures "constructor" in ObjectMembers && "constructor" != "open"
  {
  }

  /** The shape every key has: no upper-case letter, and either only
      letters and digits or none at all. */
  predicate KeyLike(s: string) {
    (forall i :: 0 <= i < |s| ==> !IsUpper(s[i]))
    && ((forall i :: 0 <= i < |s| ==> IsAlnum(s[i])) || !HasAlnum(s))
  }

  lemma KeysAreKeyLike(deburr: string -> string, name: string)
    ensures KeyLike(ToProjectKey(deburr, name))
  {
    ProjectKeyShape(deburr, name);
  }

  /** `constructor` is the only inherited member shaped like a key: every
      other one has an upper-case letter, or underscores around letters. */
  lemma InheritedKeyLikeIsConstructor()
    ensures forall m | m in ObjectMembers && KeyLike(m) :: m == "constructor"
  {
    assert IsUpper("hasOwnProperty"[3]);
    assert IsUpper("isPrototypeOf"[2]);
    assert IsUpper("propertyIsEnumerable"[8]);
    assert IsUpper("toString"[2]);
    assert IsUpper("toLocaleString"[2]);
    assert IsUpper("valueOf"[5]);
    forall m | m in {"__proto__", "__defineGetter__", "__defineSetter__", "__lookupGetter__", "__lookupSetter__"}
      ensures !KeyLike(m)
    {
      assert !IsAlnum(m[0]) && IsAlnum(m[2]);
    }
  }

  /** So a message can reach no inherited member but `constructor`. */
  lemma OnlyConstructorIsReachable(deburr: string -> string, name: string)
    ensures ToProjectKey(deburr, name) in ObjectMembers ==> ToProjectKey(deburr, name) == "constructor"
  {
    KeysAreKeyLike(deburr, name);
    InheritedKeyLikeIsConstructor();
  }

  /** A message `<command> <name>` queries the name with its first
      `?details` removed; when that key is neither reserved nor an
      inherited member, the message looks it up. */
  lemma NamedMessageLooksUpKey(idx: Index, cmd: string, name: string, deburr: string -> string)
    requires |cmd| >= 1 && ' ' !in cmd
    ensures QueryText(cmd + " " + name) == ReplaceFirst(name, "?details")
    ensures var key := ToProjectKey(deburr, ReplaceFirst(name, "?details"));
      key != "#?" && key != "open" && (key in idx.projects || key !in ObjectMembers) ==>
      HandleNumberMessage(idx, cmd + " " + name, deburr) == Lookup(key, Get(idx.projects, key))
  {
    var content := cmd + " " + name;
    assert content[|cmd|] == ' ';
    assert content[..|cmd|] == cmd;
    assert IndexOf(content, ' ') == |cmd|;
    assert content[|cmd| + 1..] == name;
  }

  /** A lone code point beyond U+FFFF is two UTF-16 units long, so it is
      not rejected: it is looked up like any name. */
  lemma AstralCharIsQueried(idx: Index, deburr: string -> string)
    ensures !HandleNumberMessage(idx, "\U{1F600}", deburr).Rejected?
  {
    assert Utf16Length("\U{1F600}") == 2;
  }

  /** After a rebuild, `<command> <name of a fetched project>` reaches the
      bot of the last fetched project sharing that name's key. */
  lemma MessageAfterBuild(idx: Index, items: seq<Option<Project>>, bdays: map<string, Option<string>>, deburr: string -> string, cmd: string, i: nat)
    requires i < |Defined(items)|
    requires |cmd| >= 1 && ' ' !in cmd
    requires !Contains(Defined(items)[i].name, "?details")
    requires ToProjectKey(deburr, Defined(items)[i].name) != "#?" && ToProjectKey(deburr, Defined(items)[i].name) != "open"
    ensures var key := ToProjectKey(deburr, Defined(items)[i].name);
      HandleNumberMessage(BuildProjectBots(idx, Some(items), bdays, deburr), cmd + " " + Defined(items)[i].name, deburr)
        == Lookup(key, Some(BotOf(LastWithKey(Defined(items), key, deburr).value, bdays)))
  {
    var name := Defined(items)[i].name;
    var key := ToProjectKey(deburr, name);
    assert LastWithKey(Defined(items), key, deburr).Some?;
    BuildProjectsMap(idx, items, bdays, deburr);
    NamedMessageLooksUpKey(BuildProjectBots(idx, Some(items), bdays, deburr), cmd, name, deburr);
  }

  // ---------------------------------------------------------------------
  // Bounded random sampling

  /** The number of probes before the sampler gives up. */
  const MaxAttempts: nat := 10

  /** `projBot.editionSize > 1 && projBot.projectActive` */
  predicate Qualifies(b: Bot) {
    b.editionSize > 1 && b.projectActive
  }

  /** `this.projects[keys[d]]`, `undefined` when the index is out of range. */
  function Probe(projects: map<string, Bot>, keys: seq<string>, d: nat): Option<Bot> {
    if d < |keys| && keys[d] in projects then Some(projects[keys[d]]) else None
  }

  predicate ProbeQualifies(projects: map<string, Bot>, keys: seq<string>, d: nat) {
    Probe(projects, keys, d).Some? && Qualifies(Probe(projects, keys, d).value)
  }

  /** What a sampler did: handed the message to a bot (each handler call
      listed), gave up, or threw. */
  datatype Sampled = Sent(bot: Bot, attempt: nat, calls: seq<Bot>) | GaveUp | Threw(attempt: nat)

  function Repeat(b: Bot, n: nat): (r: seq<Bot>)
    ensures |r| == n && forall i :: 0 <= i < n ==> r[i] == b
  {
    seq(n, _ => b)
  }

  /** `keys` is `Object.keys(projects)`: every own key, each once. */
  predicate ObjectKeys(projects: map<string, Bot>, keys: seq<string>) {
    && (forall i :: 0 <= i < |keys| ==> keys[i] in projects)
    && (forall k :: k in projects ==> k in keys)
    && (forall i, j :: 0 <= i < j < |keys| ==> keys[i] != keys[j])
  }

  /** The `while (attempts < 10)` loop from `attempt` on; `draw(a)` is
      `Math.floor(Math.random() * keys.length)` at attempt `a`. */
  function SampleFrom(projects: map<string, Bot>, keys: seq<string>, draw: nat -> nat, numMessages: nat, attempt: nat): (s: Sampled)
    requires attempt <= MaxAttempts
    ensures s.Sent? || s.GaveUp?
    ensures s.Sent? ==> (attempt <= s.attempt < MaxAttempts && Probe(projects, keys, draw(s.attempt)) == Some(s.bot)
      && Qualifies(s.bot) && s.calls == Repeat(s.bot, numMessages)
      && forall a :: attempt <= a < s.attempt ==> !ProbeQualifies(projects, keys, draw(a)))
    ensures s.GaveUp? ==> forall a :: attempt <= a < MaxAttempts ==> !ProbeQualifies(projects, keys, draw(a))
    decreases MaxAttempts - attempt
  {
    if attempt == MaxAttempts then GaveUp
    else if ProbeQualifies(projects, keys, draw(attempt)) then
      var b := Probe(projects, keys, draw(attempt)).value;
      Sent(b, attempt, Repeat(b, numMessages))
    else SampleFrom(projects, keys, draw, numMessages, attempt + 1)
  }

  /** `sendRandomProjectRandomTokenMessage`: at most ten probes of
      `Object.keys(this.projects)`; the first probe that finds an active bot
      with more than one edition gets the message `numMessages` times, and
      when none of the ten does, nothing is sent. */
  function SendRandomProject(idx: Index, keys: seq<string>, draw: nat -> nat, numMessages: nat): (s: Sampled)
    requires ObjectKeys(idx.projects, keys)
    ensures s.Sent? || s.GaveUp?
    ensures s.Sent? ==> (s.attempt < MaxAttempts && Probe(idx.projects, keys, draw(s.attempt)) == Some(s.bot)
      && Qualifies(s.bot) && s.calls == Repeat(s.bot, numMessages)
      && forall a :: 0 <= a < s.attempt ==> !ProbeQualifies(idx.projects, keys, draw(a)))
    ensures s.GaveUp? <==> forall a :: 0 <= a < MaxAttempts ==> !ProbeQualifies(idx.projects, keys, draw(a))
    ensures s.Sent? ==> draw(s.attempt) < |keys| && s.bot == idx.projects[keys[draw(s.attempt)]]
  {
    SampleFrom(idx.projects, keys, draw, numMessages, 0)
  }

  /** Only the first ten draws matter. */
  lemma {:induction false} SamplerReadsTenDraws(idx: Index, keys: seq<string>, draw: nat -> nat, draw': nat -> nat, numMessages: nat)
    requires ObjectKeys(idx.projects, keys)
    requires forall a :: 0 <= a < MaxAttempts ==> draw(a) == draw'(a)
    ensures SendRandomProject(idx, keys, draw, numMessages) == SendRandomProject(idx, keys, draw', numMessages)
  {
    SampleAgrees(idx.projects, keys, draw, draw', numMessages, 0);
  }

  lemma {:induction false} SampleAgrees(projects: map<string, Bot>, keys: seq<string>, draw: nat -> nat, draw': nat -> nat, numMessages: nat, attempt: nat)
    requires attempt <= MaxAttempts
    requires forall a :: attempt <= a < MaxAttempts ==> draw(a) == draw'(a)
    ensures SampleFrom(projects, keys, draw, numMessages, attempt) == SampleFrom(projects, keys, draw', numMessages, attempt)
    decreases MaxAttempts - attempt
  {
    if attempt < MaxAttempts {
      SampleAgrees(projects, keys, draw, draw', numMessages, attempt + 1);
    }
  }

  /** The project drawn at attempt `a`: `fetchOpen(a)` is the list
      `getArtBlocksOpenProjects()` returns then, and `draw(a)` the index
      `Math.floor(Math.random() * openProjects.length)`; `undefined` when
      the index is past the end or lands on a failed contract's hole. */
  function OpenDraw(fetchOpen: nat -> seq<Option<Project>>, draw: nat -> nat, a: nat): (r: Option<Project>)
    ensures r.Some? <==> draw(a) < |fetchOpen(a)| && fetchOpen(a)[draw(a)].Some?
    ensures r.Some? ==> r == fetchOpen(a)[draw(a)]
  {
    var open := fetchOpen(a);
    if draw(a) < |open| then open[draw(a)] else None
  }

  /** The project's key: `this.toProjectKey(project.name)`. */
  function KeyOfProject(deburr: string -> string): Project -> string {
    (p: Project) => ToProjectKey(deburr, p.name)
  }

  /** The bot the drawn project's key names, when it is an own entry. */
  function OpenBot(projects: map<string, Bot>, keyOf: Project -> string, p: Project): Option<Bot> {
    Get(projects, keyOf(p))
  }

  /** The drawn project's key names an active bot with more than one edition. */
  predicate OpenHit(projects: map<string, Bot>, keyOf: Project -> string, p: Project) {
    OpenBot(projects, keyOf, p).Some? && Qualifies(OpenBot(projects, keyOf, p).value)
  }

  /** Attempt `a` drew a project, but its key names no qualifying bot. */
  predicate OpenMiss(projects: map<string, Bot>, fetchOpen: nat -> seq<Option<Project>>, draw: nat -> nat, keyOf: Project -> string, a: nat) {
    OpenDraw(fetchOpen, draw, a).Some? && !OpenHit(projects, keyOf, OpenDraw(fetchOpen, draw, a).value)
  }

  /** The open-project loop from `attempt` on. */
  function SampleOpenFrom(projects: map<string, Bot>, fetchOpen: nat -> seq<Option<Project>>, draw: nat -> nat, keyOf: Project -> string, attempt: nat): (s: Sampled)
    requires attempt <= MaxAttempts
    ensures s.Sent? ==> (attempt <= s.attempt < MaxAttempts && OpenDraw(fetchOpen, draw, s.attempt).Some?
      && OpenBot(projects, keyOf, OpenDraw(fetchOpen, draw, s.attempt).value) == Some(s.bot)
      && Qualifies(s.bot) && s.calls == [s.bot])
    ensures s.Threw? ==> attempt <= s.attempt < MaxAttempts && OpenDraw(fetchOpen, draw, s.attempt).None?
    ensures (s.Sent? || s.Threw?) ==> forall a :: attempt <= a < s.attempt ==> OpenMiss(projects, fetchOpen, draw, keyOf, a)
    ensures s.GaveUp? <==> forall a :: attempt <= a < MaxAttempts ==> OpenMiss(projects, fetchOpen, draw, keyOf, a)
    decreases MaxAttempts - attempt
  {
    if attempt == MaxAttempts then GaveUp
    else
      var drawn := OpenDraw(fetchOpen, draw, attempt);
      if drawn.None? then
        assert !OpenMiss(projects, fetchOpen, draw, keyOf, attempt);
        Threw(attempt)
      else
        if OpenHit(projects, keyOf, drawn.value) then
          var b := OpenBot(projects, keyOf, drawn.value).value;
          assert !OpenMiss(projects, fetchOpen, draw, keyOf, attempt);
          Sent(b, attempt, [b])
        else SampleOpenFrom(projects, fetchOpen, draw, keyOf, attempt + 1)
  }

  /** `sendRandomOpenProjectRandomTokenMessage`: at most ten attempts, each
      refetching the open projects; the first drawn project whose key names
      an active bot with more than one edition gets the message once; a
      draw that lands on no project (an empty list, or the `undefined` left
      by a failed contract) throws; when all ten draws miss, nothing is
      sent. */
  function SendRandomOpenProject(idx: Index, fetchOpen: nat -> seq<Option<Project>>, draw: nat -> nat, deburr: string -> string): (s: Sampled)
    ensures s.Sent? ==> (s.attempt < MaxAttempts && OpenDraw(fetchOpen, draw, s.attempt).Some?
      && var key := ToProjectKey(deburr, OpenDraw(fetchOpen, draw, s.attempt).value.name);
      key in idx.projects && s.bot == idx.projects[key]
      && Qualifies(s.bot) && s.calls == [s.bot] && s.bot in idx.projects.Values)
    ensures s.Threw? ==> s.attempt < MaxAttempts && OpenDraw(fetchOpen, draw, s.attempt).None?
    ensures (s.Sent? || s.Threw?) ==> forall a :: 0 <= a < s.attempt ==> OpenMiss(idx.projects, fetchOpen, draw, KeyOfProject(deburr), a)
    ensures s.GaveUp? <==> forall a :: 0 <= a < MaxAttempts ==> OpenMiss(idx.projects, fetchOpen, draw, KeyOfProject(deburr), a)
  {
    SampleOpenFrom(idx.projects, fetchOpen, draw, KeyOfProject(deburr), 0)
  }

  // ---------------------------------------------------------------------
  // Birthday greetings

  /** The bot has a start time whose year is not the current one. */
  function Celebrates(year: string, yearOf: string -> string): Bot -> bool {
    (b: Bot) => b.startTime.Some? && yearOf(b.startTime.value) != year
  }

  /** The filter in `startBirthdayRoutine`: of the bots listed for today's
      "MM-DD" (taken from `now.toISOString()`), those with a start time in
      another year, in list order. `yearOf` is
      `startTime.getFullYear().toString()`. */
  function BirthdayGreetings(idx: Index, nowIso: string, yearOf: string -> string): (r: seq<Bot>)
    ensures forall i :: 0 <= i < |r| ==> (r[i] in ListAt(idx.birthdays, MonthDay(nowIso))
      && r[i].startTime.Some? && yearOf(r[i].startTime.value) != Field(DateParts(nowIso), 0))
    ensures forall i :: 0 <= i < |ListAt(idx.birthdays, MonthDay(nowIso))| ==>
      var b := ListAt(idx.birthdays, MonthDay(nowIso))[i];
      b.startTime.Some? && yearOf(b.startTime.value) != Field(DateParts(nowIso), 0) ==> b in r
    ensures forall b :: multiset(r)[b] == if Celebrates(Field(DateParts(nowIso), 0), yearOf)(b)
      then multiset(ListAt(idx.birthdays, MonthDay(nowIso)))[b] else 0
    ensures |r| <= |ListAt(idx.birthdays, MonthDay(nowIso))|
    ensures KeptInOrder(Celebrates(Field(DateParts(nowIso), 0), yearOf), ListAt(idx.birthdays, MonthDay(nowIso)), r)
  {
    var listed := ListAt(idx.birthdays, MonthDay(nowIso));
    var celebrates := Celebrates(Field(DateParts(nowIso), 0), yearOf);
    FilterCounts(celebrates, listed);
    var pos := FilterIndexes(celebrates, listed);
    Filter(celebrates, listed)
  }
}
