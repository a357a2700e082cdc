/** `helpers/notifier.py`: which freshly parsed listings are announced, and
    the status messages sent after a run. The `WHERE` clause of
    `get_to_notify` is evaluated under SQL's three-valued logic over rows
    of the `listing_info_full` view whose columns may be `NULL`; a row is
    returned only when the clause is TRUE. The view's rows, in the order
    the database returns them, are an input; so is the rendering of one
    row into a message. Sending over the messaging API is not modelled. */
module Notifier {
  import opened Wrappers
  import opened PyJson
  import opened Text

  // ---------------------------------------------------------------------
  // SQL three-valued logic

  /** A truth value of SQL: TRUE, FALSE or NULL (unknown). */
  datatype Tri = SqlTrue | SqlFalse | SqlNull

  /** A nullable boolean column as a truth value. */
  function OfBool(b: Option<bool>): (r: Tri)
    ensures r == SqlTrue <==> b == Some(true)
    ensures r == SqlFalse <==> b == Some(false)
  {
    match b
    case None => SqlNull
    case Some(v) => if v then SqlTrue else SqlFalse
  }

  /** SQL `NOT`: NULL stays NULL. */
  function Not(a: Tri): (r: Tri)
    ensures r == SqlTrue <==> a == SqlFalse
    ensures r == SqlFalse <==> a == SqlTrue
  {
    match a
    case SqlTrue => SqlFalse
    case SqlFalse => SqlTrue
    case SqlNull => SqlNull
  }

  /** SQL `AND`: FALSE wins over NULL, NULL over TRUE. */
  function And(a: Tri, b: Tri): (r: Tri)
    ensures r == SqlTrue <==> a == SqlTrue && b == SqlTrue
    ensures r == SqlFalse <==> a == SqlFalse || b == SqlFalse
  {
    if a == SqlFalse || b == SqlFalse then SqlFalse
    else if a == SqlTrue && b == SqlTrue then SqlTrue
    else SqlNull
  }

  /** SQL `OR`: TRUE wins over NULL, NULL over FALSE. */
  function Or(a: Tri, b: Tri): (r: Tri)
    ensures r == SqlTrue <==> a == SqlTrue || b == SqlTrue
    ensures r == SqlFalse <==> a == SqlFalse && b == SqlFalse
  {
    if a == SqlTrue || b == SqlTrue then SqlTrue
    else if a == SqlFalse && b == SqlFalse then SqlFalse
    else SqlNull
  }

  /** `x IS NULL`, which is never NULL itself. */
  function IsNull<T>(x: Option<T>): (r: Tri)
    ensures r != SqlNull && (r == SqlTrue <==> x.None?)
  {
    if x.None? then SqlTrue else SqlFalse
  }

  /** `x > k` on a nullable integer column. */
  function Greater(x: Option<int>, k: int): (r: Tri)
    ensures r == SqlNull <==> x.None?
    ensures r == SqlTrue <==> x.Some? && x.value > k
  {
    match x
    case None => SqlNull
    case Some(v) => if v > k then SqlTrue else SqlFalse
  }

  /** `x < k` on a nullable numeric column. */
  function Less(x: Option<real>, k: real): (r: Tri)
    ensures r == SqlNull <==> x.None?
    ensures r == SqlTrue <==> x.Some? && x.value < k
  {
    match x
    case None => SqlNull
    case Some(v) => if v < k then SqlTrue else SqlFalse
  }

  /** `x IN (ids)` for a non-null `x` and a non-empty list of non-null
      values. */
  function In(x: int, ids: seq<int>): (r: Tri)
    ensures r != SqlNull && (r == SqlTrue <==> x in ids)
  {
    if x in ids then SqlTrue else SqlFalse
  }

  // ---------------------------------------------------------------------
  // get_to_notify

  /** The columns of a `listing_info_full` row the filter reads. */
  datatype ViewRow = ViewRow(
    listingId: int,
    scraped: Option<bool>,
    irrelevant: Option<bool>,
    nRooms: Option<int>,
    kitchenCombined: Option<bool>,
    totalRentPrice: Option<real>,
    allowedWithPets: Option<bool>,
    ourDecision: Option<string>)

  /** The price ceiling of the filter. */
  const PriceCeiling: real := 6700.0

  /** Flats with more rooms than this qualify whatever their kitchen. */
  const RoomsFloor: int := 3

  /** The `WHERE` clause of `get_to_notify`, conjunct by conjunct. */
  function Where(ids: seq<int>, r: ViewRow): Tri {
    And(In(r.listingId, ids),
    And(OfBool(r.scraped),
    And(Not(OfBool(r.irrelevant)),
    And(Or(Greater(r.nRooms, RoomsFloor), Not(OfBool(r.kitchenCombined))),
    And(Less(r.totalRentPrice, PriceCeiling),
    And(Or(IsNull(r.allowedWithPets), OfBool(r.allowedWithPets)),
        IsNull(r.ourDecision)))))))
  }

  /** A row the query returns. */
  predicate Selected(ids: seq<int>, r: ViewRow) {
    Where(ids, r) == SqlTrue
  }

  /** The filter in plain terms: one of the given ids; scraped and not
      irrelevant, both known; more than three rooms or a kitchen known to
      be separate; a known price under 6700; pets not refused; and no
      decision taken yet. An unknown room count, kitchen layout, price,
      scraped or irrelevant flag never qualifies a row. */
  lemma SelectedIff(ids: seq<int>, r: ViewRow)
    ensures Selected(ids, r) <==>
      && r.listingId in ids
      && r.scraped == Some(true)
      && r.irrelevant == Some(false)
      && ((r.nRooms.Some? && r.nRooms.value > 3) || r.kitchenCombined == Some(false))
      && r.totalRentPrice.Some? && r.totalRentPrice.value < 6700.0
      && r.allowedWithPets != Some(false)
      && r.ourDecision.None?
  {
  }

  /** The rows of the view that pass the filter, in the view's order. */
  function Filter(ids: seq<int>, view: seq<ViewRow>): seq<ViewRow> {
    if |view| == 0 then []
    else Filter(ids, view[..|view| - 1]) + (if Selected(ids, view[|view| - 1]) then [view[|view| - 1]] else [])
  }

  /** `Filter` keeps exactly the selected rows, each as often as the view
      holds it, and in the view's order. */
  lemma {:induction false} FilterKeepsSelected(ids: seq<int>, view: seq<ViewRow>)
    ensures forall r :: r in Filter(ids, view) <==> r in view && Selected(ids, r)
    ensures forall r | Selected(ids, r) :: multiset(Filter(ids, view))[r] == multiset(view)[r]
    ensures |Filter(ids, view)| <= |view|
    ensures forall r | r in Filter(ids, view) :: r.listingId in ids
  {
    if |view| > 0 {
      var m := |view| - 1;
      FilterKeepsSelected(ids, view[..m]);
      SelectedIff(ids, view[m]);
      assert view == view[..m] + [view[m]];
      assert multiset(view) == multiset(view[..m]) + multiset{view[m]};
    }
  }

  /** `get_to_notify`: the selected rows of the view among `ids`. An empty
      id list makes the statement end in `in ()`, which the database
      rejects. */
  function GetToNotify(ids: seq<int>, view: seq<ViewRow>): (r: Result<seq<ViewRow>, Error>)
    ensures r.Err? <==> |ids| == 0
    ensures r.Err? ==> r.error == ProgrammingError
    ensures r.Ok? ==> forall k | 0 <= k < |r.value| :: r.value[k].listingId in ids && r.value[k] in view
  {
    if |ids| == 0 then Err(ProgrammingError)
    else
      FilterKeepsSelected(ids, view);
      Ok(Filter(ids, view))
  }

  // ---------------------------------------------------------------------
  // send_updates

  /** What `send_updates` does: the ids it queried for, if it queried at
      all, and the messages it sent, in order. */
  datatype Notification = Notification(queried: Option<seq<int>>, messages: seq<string>)

  /** The ids of parsed `(id, url)` pairs, in order. */
  function IdsOf(info: seq<(int, string)>): (r: seq<int>)
    ensures |r| == |info| && forall k | 0 <= k < |info| :: r[k] == info[k].0
  {
    seq(|info|, k requires 0 <= k < |info| => info[k].0)
  }

  /** `send_updates`: nothing at all for an empty list; otherwise query the
      selected rows for the list's ids and send one message per row, in
      the order the rows come back. */
  function SendUpdates(info: seq<(int, string)>, view: seq<ViewRow>, format: ViewRow -> string)
    : (r: Result<Notification, Error>)
    ensures |info| == 0 ==> r == Ok(Notification(None, []))
  {
    if |info| == 0 then Ok(Notification(None, []))
    else
      var ids := IdsOf(info);
      match GetToNotify(ids, view)
      case Err(e) => Err(e)
      case Ok(rows) => Ok(Notification(Some(ids), seq(|rows|, k requires 0 <= k < |rows| => format(rows[k]))))
  }

  /** A non-empty list is queried for its own ids and never fails; one
      message goes out per selected row of the view, and only for rows of
      the listed ids. */
  lemma SendUpdatesOneMessagePerRow(info: seq<(int, string)>, view: seq<ViewRow>, format: ViewRow -> string)
    requires |info| > 0
    ensures var r := SendUpdates(info, view, format);
      var rows := Filter(IdsOf(info), view);
      && r.Ok? && r.value.queried == Some(IdsOf(info))
      && |r.value.messages| == |rows|
      && (forall k | 0 <= k < |rows| :: r.value.messages[k] == format(rows[k]))
      && (forall row :: row in rows <==> row in view && Selected(IdsOf(info), row))
      && (forall k | 0 <= k < |rows| :: exists j | 0 <= j < |info| :: info[j].0 == rows[k].listingId)
  {
    var ids := IdsOf(info);
    FilterKeepsSelected(ids, view);
    assert GetToNotify(ids, view) == Ok(Filter(ids, view));
    var rows := Filter(ids, view);
    forall k | 0 <= k < |rows|
      ensures exists j | 0 <= j < |info| :: info[j].0 == rows[k].listingId
    {
      assert Selected(ids, rows[k]);
      SelectedIff(ids, rows[k]);
      var j :| 0 <= j < |ids| && ids[j] == rows[k].listingId;
      assert info[j].0 == rows[k].listingId;
    }
  }

  // ---------------------------------------------------------------------
  // Status messages

  /** The number of spaces a line starts with. */
  function Indent(line: string): (n: nat)
    ensures n <= |line|
    decreases |line|
  {
    if |line| > 0 && line[0] == ' ' then 1 + Indent(line[1..]) else 0
  }

  /** A line holding nothing but spaces. */
  predicate Blank(line: string) {
    forall k | 0 <= k < |line| :: line[k] == ' '
  }

  /** The smallest indentation of the lines that are not blank; `None`
      when every line is blank. */
  function Margin(lines: seq<string>): (m: Option<nat>)
    ensures m.Some? ==> forall k | 0 <= k < |lines| && !Blank(lines[k]) :: m.value <= Indent(lines[k])
    ensures m.None? <==> forall k | 0 <= k < |lines| :: Blank(lines[k])
    ensures m.Some? ==> exists k | 0 <= k < |lines| && !Blank(lines[k]) :: Indent(lines[k]) == m.value
  {
    if |lines| == 0 then None
    else
      var rest := Margin(lines[..|lines| - 1]);
      var last := lines[|lines| - 1];
      if Blank(last) then rest
      else if rest.None? || Indent(last) < rest.value then Some(Indent(last))
      else rest
  }

  /** One line after dedenting by `margin`: blank lines become empty,
      others lose their first `margin` characters. */
  function DedentLine(line: string, margin: Option<nat>): string {
    if Blank(line) then ""
    else if margin.Some? && margin.value <= |line| then line[margin.value..]
    else line
  }

  /** `textwrap.dedent` for text indented with spaces: remove the common
      indentation of the non-blank lines, and empty the blank ones. */
  function Dedent(s: string): string {
    var lines := Split(s, '\n');
    Join(DedentLines(lines, Margin(lines)), '\n')
  }

  /** Every line dedented by `margin`. */
  function DedentLines(lines: seq<string>, margin: Option<nat>): (r: seq<string>)
    ensures |r| == |lines| && forall k | 0 <= k < |lines| :: r[k] == DedentLine(lines[k], margin)
  {
    seq(|lines|, k requires 0 <= k < |lines| => DedentLine(lines[k], margin))
  }

  const DoneUpdating: string := "Done updating from Otodom!"
  const ParsedAds: string := "    Parsed ads: "
  const DoneLiveChecking: string := "Done live-checking from Otodom!"
  const StillAlive: string := "Still alive ads: "
  const DeadAds: string := "Dead ads: "
  const Indentation: string := "    "
  const Period: string := "."

  /** `format_status_msg`: the count of parsed ads in the template, whose
      continuation lines keep the four spaces of the source's
      indentation. */
  function FormatStatusMsg<T>(info: seq<T>): string {
    DoneUpdating + "\n" + ParsedAds + NatText(|info|) + "\n" + Indentation
  }

  /** The template of `format_status_msg_alive` as `str.format` fills it,
      before dedenting: every line is indented by four spaces, and the
      backslash after the dead count joins the closing line's indentation
      to it. */
  function AliveTemplate(nAlive: nat, nDead: nat): string {
    Indentation + DoneLiveChecking + "\n" +
    Indentation + StillAlive + NatText(nAlive) + "\n" +
    Indentation + DeadAds + NatText(nDead) + Period + Indentation
  }

  /** `format_status_msg_alive`: the filled template, dedented. */
  function FormatStatusMsgAlive<T>(alive: seq<T>, dead: seq<T>): string {
    Dedent(AliveTemplate(|alive|, |dead|))
  }

  /** Decimal digits hold no line break. */
  lemma DigitsHaveNoBreak(s: string)
    requires AllDigits(s)
    ensures '\n' !in s
  {
    forall k | 0 <= k < |s|
      ensures s[k] != '\n'
    {
      assert IsDigit(s[k]);
    }
  }

  /** The fixed parts of the messages hold no line break, and the lines
      of the alive template start with a character other than a space. */
  lemma FixedTextFacts()
    ensures '\n' !in DoneUpdating && '\n' !in ParsedAds && '\n' !in Indentation
    ensures '\n' !in DoneLiveChecking && '\n' !in StillAlive && '\n' !in DeadAds && '\n' !in Period
    ensures Blank(Indentation) && |Indentation| == 4
    ensures |DoneLiveChecking| > 0 && DoneLiveChecking[0] != ' '
    ensures |StillAlive| > 0 && StillAlive[0] != ' '
    ensures |DeadAds| > 0 && DeadAds[0] != ' '
  {
    NoBreakInLongLines();
  }

  /** The two longer fixed lines hold no line break. */
  lemma NoBreakInLongLines()
    ensures '\n' !in DoneUpdating && '\n' !in DoneLiveChecking
  {
  }

  /** A line of `pad` spaces followed by a non-space is indented by
      `|pad|`. */
  lemma {:induction false} IndentAfterSpaces(pad: string, rest: string)
    requires Blank(pad) && |rest| > 0 && rest[0] != ' '
    ensures Indent(pad + rest) == |pad| && !Blank(pad + rest)
    decreases |pad|
  {
    var s := pad + rest;
    assert s[|pad|] == rest[0];
    if |pad| > 0 {
      IndentAfterSpaces(pad[1..], rest);
      assert s[1..] == pad[1..] + rest;
    }
  }

  /** Three lines joined by line breaks split back into those lines. */
  lemma SplitThree(a: string, b: string, c: string)
    requires '\n' !in a && '\n' !in b && '\n' !in c
    ensures Join([a, b, c], '\n') == a + "\n" + b + "\n" + c
    ensures Split(a + "\n" + b + "\n" + c, '\n') == [a, b, c]
  {
    var lines := [a, b, c];
    assert lines[1..] == [b, c] && lines[1..][1..] == [c];
    assert Join([b, c], '\n') == b + ['\n'] + c;
    assert Join(lines, '\n') == a + ['\n'] + (b + ['\n'] + c);
    assert a + ['\n'] + (b + ['\n'] + c) == a + "\n" + b + "\n" + c;
    SplitOfJoin(lines, '\n');
  }

  /** The margin of three non-blank lines indented alike is that
      indentation. */
  lemma MarginThree(x: string, y: string, z: string, n: nat)
    requires !Blank(x) && !Blank(y) && !Blank(z)
    requires Indent(x) == n && Indent(y) == n && Indent(z) == n
    ensures Margin([x, y, z]) == Some(n)
  {
    var l1, l2, l3 := [x], [x, y], [x, y, z];
    assert l1[..0] == [] && l2[..1] == l1 && l3[..2] == l2;
    assert Margin(l1) == Some(n);
    assert Margin(l2) == Some(n);
  }

  /** A line indented by `pad` before a non-space loses exactly `pad`
      when dedented by its length. */
  lemma DedentPadded(pad: string, a: string)
    requires Blank(pad) && |a| > 0 && a[0] != ' '
    ensures !Blank(pad + a) && Indent(pad + a) == |pad|
    ensures DedentLine(pad + a, Some(|pad|)) == a
  {
    IndentAfterSpaces(pad, a);
    assert (pad + a)[|pad|..] == a;
  }

  /** Dedenting three lines that all carry the same indentation `pad`
      before a non-space removes exactly that indentation. */
  lemma DedentThree(pad: string, a: string, b: string, c: string)
    requires Blank(pad) && '\n' !in pad
    requires '\n' !in a && '\n' !in b && '\n' !in c
    requires |a| > 0 && a[0] != ' ' && |b| > 0 && b[0] != ' ' && |c| > 0 && c[0] != ' '
    ensures Dedent(pad + a + "\n" + pad + b + "\n" + pad + c) == a + "\n" + b + "\n" + c
  {
    var x, y, z := pad + a, pad + b, pad + c;
    var s := pad + a + "\n" + pad + b + "\n" + pad + c;
    assert Split(s, '\n') == [x, y, z] by {
      assert s == x + "\n" + y + "\n" + z;
      SplitThree(x, y, z);
    }
    assert DedentLines([x, y, z], Margin([x, y, z])) == [a, b, c] by {
      DedentPadded(pad, a);
      DedentPadded(pad, b);
      DedentPadded(pad, c);
      MarginThree(x, y, z, |pad|);
    }
    SplitThree(a, b, c);
  }

  /** Dedenting the alive template strips the four spaces from each line
      and keeps the spaces that trail the dead count. */
  lemma FormatStatusMsgAliveText<T>(alive: seq<T>, dead: seq<T>)
    ensures FormatStatusMsgAlive(alive, dead) ==
      DoneLiveChecking + "\n" + (StillAlive + NatText(|alive|)) + "\n" + (DeadAds + NatText(|dead|) + Period + Indentation)
  {
    FixedTextFacts();
    DigitsHaveNoBreak(NatText(|alive|));
    DigitsHaveNoBreak(NatText(|dead|));
    var a, b, c := DoneLiveChecking, StillAlive + NatText(|alive|), DeadAds + NatText(|dead|) + Period + Indentation;
    assert b[0] == StillAlive[0] && c[0] == DeadAds[0];
    assert AliveTemplate(|alive|, |dead|) == Indentation + a + "\n" + Indentation + b + "\n" + Indentation + c;
    DedentThree(Indentation, a, b, c);
  }

  /** The number between `prefix` and `suffix` in a line, if the line is
      made of exactly those and a run of digits. */
  function ReadNumber(line: string, prefix: string, suffix: string): Option<nat> {
    if |line| >= |prefix| + |suffix| && line[..|prefix|] == prefix && line[|line| - |suffix|..] == suffix then
      var digits := line[|prefix|..|line| - |suffix|];
      if |digits| > 0 && AllDigits(digits) then Some(DigitsValue(digits)) else None
    else None
  }

  /** A number rendered between a prefix and a suffix reads back. */
  lemma ReadNumberOfText(prefix: string, n: nat, suffix: string)
    ensures ReadNumber(prefix + NatText(n) + suffix, prefix, suffix) == Some(n)
  {
    var line := prefix + NatText(n) + suffix;
    assert line[..|prefix|] == prefix;
    assert line[|line| - |suffix|..] == suffix;
    assert line[|prefix|..|line| - |suffix|] == NatText(n);
  }

  /** The count a `format_status_msg` text reports. */
  function ReadStatus(msg: string): Option<nat> {
    var lines := Split(msg, '\n');
    if |lines| == 3 && lines[0] == DoneUpdating && lines[2] == Indentation then ReadNumber(lines[1], ParsedAds, "")
    else None
  }

  /** `format_status_msg` reports the number of parsed ads: its count
      reads back as `len(info)`. */
  lemma FormatStatusMsgReportsCount<T>(info: seq<T>)
    ensures ReadStatus(FormatStatusMsg(info)) == Some(|info|)
  {
    FixedTextFacts();
    var b := ParsedAds + NatText(|info|);
    DigitsHaveNoBreak(NatText(|info|));
    assert FormatStatusMsg(info) == DoneUpdating + "\n" + b + "\n" + Indentation;
    SplitThree(DoneUpdating, b, Indentation);
    ReadNumberOfText(ParsedAds, |info|, "");
    assert b == ParsedAds + NatText(|info|) + "";
  }

  /** The two counts a `format_status_msg_alive` text reports. */
  function ReadStatusAlive(msg: string): Option<(nat, nat)> {
    var lines := Split(msg, '\n');
    if |lines| == 3 && lines[0] == DoneLiveChecking then
      match (ReadNumber(lines[1], StillAlive, ""), ReadNumber(lines[2], DeadAds, Period + Indentation))
      case (Some(a), Some(d)) => Some((a, d))
      case _ => None
    else None
  }

  /** `format_status_msg_alive` reports the number of live and of dead
      ads: its counts read back as `len(alive)` and `len(dead)`. */
  lemma FormatStatusMsgAliveReportsCounts<T>(alive: seq<T>, dead: seq<T>)
    ensures ReadStatusAlive(FormatStatusMsgAlive(alive, dead)) == Some((|alive|, |dead|))
  {
    FormatStatusMsgAliveText(alive, dead);
    FixedTextFacts();
    DigitsHaveNoBreak(NatText(|alive|));
    DigitsHaveNoBreak(NatText(|dead|));
    var b, c := StillAlive + NatText(|alive|), DeadAds + NatText(|dead|) + (Period + Indentation);
    assert DeadAds + NatText(|dead|) + Period + Indentation == c;
    SplitThree(DoneLiveChecking, b, c);
    ReadNumberOfText(StillAlive, |alive|, "");
    assert b == StillAlive + NatText(|alive|) + "";
    ReadNumberOfText(DeadAds, |dead|, Period + Indentation);
  }
}
