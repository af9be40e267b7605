/**
  The editor: the players and ball on the board, the drawn arrows and the
  two teams' names and colours, with the operations the editor's panels and
  board call, the "save scene" and "finish" guards, and the id scheme the
  player page later decodes.

  `Math.random()` and `Date.now()` are parameters: each formation player's
  random suffix is a `salt`, a custom player's timestamp is a `stamp`.
 */
module Workspace {
  import opened Wrappers
  import opened Text
  import opened Types
  import opened Tactic
  import opened Recorder
  import Color
  import RecordPanel
  import Playback

  /** The editor's own scene limit, checked before the recorder is asked. */
  const MaxScenes: nat := 10

  /** The board contents of the editor. */
  datatype Editor = Editor(players: seq<Player>, ball: Point, arrows: seq<Arrow>)

  const EmptyBoard: Editor := Editor([], Centre, [])

  /* ---------------- teams ---------------- */

  datatype TeamMeta = TeamMeta(name: string, fill: string, stroke: string)

  datatype Teams = Teams(top: TeamMeta, bottom: TeamMeta)

  function TeamOf(t: Teams, side: Side): TeamMeta {
    match side
    case Top => t.top
    case Bottom => t.bottom
  }

  function WithTeam(t: Teams, side: Side, m: TeamMeta): (t': Teams)
    ensures TeamOf(t', side) == m
    ensures TeamOf(t', Other(side)) == TeamOf(t, Other(side))
  {
    match side
    case Top => t.(top := m)
    case Bottom => t.(bottom := m)
  }

  function Other(side: Side): Side {
    match side
    case Top => Bottom
    case Bottom => Top
  }

  /** The starting teams: each outline is its fill lightened. */
  function InitialTeams(): (t: Teams)
    ensures t.top.fill == "#1f6feb" && t.bottom.fill == "#ef4444"
    ensures t.top.stroke == Color.Lighten(t.top.fill) && t.bottom.stroke == Color.Lighten(t.bottom.fill)
  {
    Teams(TeamMeta("Takım 1", "#1f6feb", Color.Lighten("#1f6feb")),
          TeamMeta("Takım 2", "#ef4444", Color.Lighten("#ef4444")))
  }

  /** `setTeamName`: only the name of the chosen team changes. */
  function SetTeamName(t: Teams, side: Side, name: string): (t': Teams)
    ensures TeamOf(t', side) == TeamOf(t, side).(name := name)
    ensures TeamOf(t', Other(side)) == TeamOf(t, Other(side))
  {
    WithTeam(t, side, TeamOf(t, side).(name := name))
  }

  /** `setTeamColor`: the chosen team's fill, and its outline recomputed from it; the name and the other team stay. */
  function SetTeamColor(t: Teams, side: Side, fill: string): (t': Teams)
    ensures TeamOf(t', side).name == TeamOf(t, side).name && TeamOf(t', side).fill == fill
    ensures TeamOf(t', side).stroke == Color.Lighten(fill)
    ensures TeamOf(t', Other(side)) == TeamOf(t, Other(side))
  {
    WithTeam(t, side, TeamOf(t, side).(fill := fill, stroke := Color.Lighten(fill)))
  }

  /**
    Whatever colour is picked, the outline reads back, channel by channel,
    no darker than the fill and within 0..255.
   */
  lemma OutlineNoDarker(t: Teams, side: Side, fill: string)
    ensures var num := Color.ParseInt16(Color.RemoveFirstHash(fill));
      var back := Color.ParseInt16(Color.RemoveFirstHash(TeamOf(SetTeamColor(t, side, fill), side).stroke));
      forall shift :: shift in {16, 8, 0} ==> Color.Channel(num, shift) <= Color.Channel(back, shift) <= 255
  {
    Color.LightenRoundTrip(fill);
  }

  /* ---------------- selecting players ---------------- */

  /** The filters the editor applies to its player list. */
  datatype Selector = TeamIs(side: Side) | TeamIsNot(side: Side) | IdIsNot(id: string)

  predicate Selects(sel: Selector, p: Player) {
    match sel
    case TeamIs(s) => p.team == s
    case TeamIsNot(s) => p.team != s
    case IdIsNot(id) => p.id != id
  }

  /** `players.filter(...)`: the selected players, in their order. */
  function Filter(ps: seq<Player>, sel: Selector): (r: seq<Player>)
    ensures |r| <= |ps|
    ensures forall p :: p in r <==> p in ps && Selects(sel, p)
    decreases |ps|
  {
    if |ps| == 0 then []
    else
      assert ps == [ps[0]] + ps[1..];
      (if Selects(sel, ps[0]) then [ps[0]] else []) + Filter(ps[1..], sel)
  }

  lemma {:induction false} FilterAppend(a: seq<Player>, b: seq<Player>, sel: Selector)
    ensures Filter(a + b, sel) == Filter(a, sel) + Filter(b, sel)
    decreases |a|
  {
    if |a| == 0 {
      assert a + b == b;
    } else {
      assert (a + b)[1..] == a[1..] + b;
      FilterAppend(a[1..], b, sel);
    }
  }

  /** A filter that selects every player keeps the list as it is. */
  lemma {:induction false} FilterAll(ps: seq<Player>, sel: Selector)
    requires forall p :: p in ps ==> Selects(sel, p)
    ensures Filter(ps, sel) == ps
    decreases |ps|
  {
    if |ps| > 0 {
      assert ps[0] in ps;
      assert forall p :: p in ps[1..] ==> p in ps;
      FilterAll(ps[1..], sel);
    }
  }

  /** A filter that selects no player leaves nothing. */
  lemma {:induction false} FilterNone(ps: seq<Player>, sel: Selector)
    requires forall p :: p in ps ==> !Selects(sel, p)
    ensures Filter(ps, sel) == []
    decreases |ps|
  {
    if |ps| > 0 {
      assert ps[0] in ps;
      assert forall p :: p in ps[1..] ==> p in ps;
      FilterNone(ps[1..], sel);
    }
  }

  /** Filtering twice by the same selector is filtering once. */
  lemma FilterIdempotent(ps: seq<Player>, sel: Selector)
    ensures Filter(Filter(ps, sel), sel) == Filter(ps, sel)
  {
    FilterAll(Filter(ps, sel), sel);
  }

  /* ---------------- formations ---------------- */

  /**
    The id of the `idx`-th formation player: side, number, index and random
    suffix joined by "_". The player page decodes it back to the side, the
    number and the label "P" and the number.
   */
  function FormationId(side: Side, number: nat, idx: nat, salt: string): (id: string)
    ensures Playback.InferMetaFromId(id) == Playback.Meta(side, number, Playback.Label(number))
  {
    var tail := "_" + Decimal(idx) + "_" + salt;
    Playback.InferMetaOfEncodedId(side, number, tail);
    assert SideName(side) + "_" + Decimal(number) + "_" + Decimal(idx) + "_" + salt
      == SideName(side) + "_" + Decimal(number) + tail;
    SideName(side) + "_" + Decimal(number) + "_" + Decimal(idx) + "_" + salt
  }

  /** The players made from seeds, in seed order, each with its index and random suffix in its id. */
  function Recruit(side: Side, seeds: seq<Seed>, salts: seq<string>): (ps: seq<Player>)
    requires |salts| == |seeds|
    ensures |ps| == |seeds|
    ensures forall k :: 0 <= k < |seeds| ==>
      && ps[k].id == FormationId(side, seeds[k].number, k, salts[k])
      && ps[k].team == side && ps[k].number == seeds[k].number && ps[k].name == seeds[k].name
      && ps[k].nx == seeds[k].nx && ps[k].ny == seeds[k].ny
  {
    seq(|seeds|, k requires 0 <= k < |seeds| =>
      Player(FormationId(side, seeds[k].number, k, salts[k]), side, seeds[k].number, seeds[k].name, seeds[k].nx, seeds[k].ny))
  }

  /** The eleven players `applyFormation` creates from the formation's seeds. */
  function NewPlayers(side: Side, f: FormationName, salts: seq<string>): (ps: seq<Player>)
    requires |salts| == 11
    ensures |ps| == 11
  {
    Recruit(side, GenerateFormation(f, side), salts)
  }

  /** `applyFormation(side, f)`: the other side's players, then eleven created players of `side`; the ball goes to the centre. */
  function ApplyFormation(e: Editor, side: Side, f: FormationName, salts: seq<string>): (e': Editor)
    requires |salts| == 11
    ensures e'.ball == Centre && e'.arrows == e.arrows
    ensures |e'.players| == |Filter(e.players, TeamIsNot(side))| + 11
  {
    Editor(Filter(e.players, TeamIsNot(side)) + NewPlayers(side, f, salts), Centre, e.arrows)
  }

  /**
    After applying a formation to one side, the other side's players are
    exactly those it had, in order, and this side's players are exactly the
    eleven new ones, which follow the seeds in order.
   */
  lemma ApplyFormationSides(e: Editor, side: Side, f: FormationName, salts: seq<string>)
    requires |salts| == 11
    ensures var e' := ApplyFormation(e, side, f, salts);
      && Filter(e'.players, TeamIs(Other(side))) == Filter(e.players, TeamIs(Other(side)))
      && Filter(e'.players, TeamIs(side)) == NewPlayers(side, f, salts)
      && e'.players[|e'.players| - 11..] == NewPlayers(side, f, salts)
  {
    var keep := Filter(e.players, TeamIsNot(side));
    var created := NewPlayers(side, f, salts);
    RecruitsOnSide(side, GenerateFormation(f, side), salts);
    SameTeamFilters(e.players, side);
    SplitBySide(keep, created, side);
    assert (keep + created)[|keep|..] == created;
  }

  /** Players of the other side followed by players of `side` split back into the two parts. */
  lemma SplitBySide(keep: seq<Player>, created: seq<Player>, side: Side)
    requires forall p :: p in keep ==> p.team != side
    requires forall p :: p in created ==> p.team == side
    ensures Filter(keep + created, TeamIs(Other(side))) == keep
    ensures Filter(keep + created, TeamIs(side)) == created
  {
    FilterAppend(keep, created, TeamIs(Other(side)));
    FilterAppend(keep, created, TeamIs(side));
    FilterNone(created, TeamIs(Other(side)));
    FilterAll(created, TeamIs(side));
    FilterNone(keep, TeamIs(side));
    assert forall p :: p in keep ==> p.team == Other(side);
    FilterAll(keep, TeamIs(Other(side)));
    assert keep + [] == keep;
    assert [] + created == created;
  }

  lemma RecruitsOnSide(side: Side, seeds: seq<Seed>, salts: seq<string>)
    requires |salts| == |seeds|
    ensures forall p :: p in Recruit(side, seeds, salts) ==> p.team == side
  {
    var ps := Recruit(side, seeds, salts);
    forall p | p in ps
      ensures p.team == side
    {
      var k :| 0 <= k < |ps| && ps[k] == p;
    }
  }

  /** Keeping the players not of `side` is keeping the players of the other side. */
  lemma {:induction false} SameTeamFilters(ps: seq<Player>, side: Side)
    ensures Filter(ps, TeamIsNot(side)) == Filter(ps, TeamIs(Other(side)))
    decreases |ps|
  {
    if |ps| > 0 {
      SameTeamFilters(ps[1..], side);
    }
  }

  /**
    The player page reads each formation player's id back as its side, its
    number and the same label the editor shows.
   */
  lemma FormationIdsDecode(side: Side, f: FormationName, salts: seq<string>, k: nat)
    requires |salts| == 11 && k < 11
    ensures var p := NewPlayers(side, f, salts)[k];
      Playback.InferMetaFromId(p.id) == Playback.Meta(p.team, p.number, p.name)
  {
    var seeds := GenerateFormation(f, side);
    SeedsInOwnHalf(f, side);
    JerseysPositive(f, side);
    RecruitDecodes(side, seeds, salts, k);
  }

  /** A recruit whose seed has a positive number and the label "P" and that number decodes to its own metadata. */
  lemma RecruitDecodes(side: Side, seeds: seq<Seed>, salts: seq<string>, k: nat)
    requires |salts| == |seeds| && k < |seeds|
    requires seeds[k].number >= 1 && seeds[k].name == "P" + Decimal(seeds[k].number)
    ensures var p := Recruit(side, seeds, salts)[k];
      Playback.InferMetaFromId(p.id) == Playback.Meta(p.team, p.number, p.name)
  {
    var s := seeds[k];
    var p := Recruit(side, seeds, salts)[k];
    var tail := "_" + Decimal(k) + "_" + salts[k];
    assert p.id == SideName(side) + "_" + Decimal(s.number) + tail;
    Playback.InferMetaOfEncodedId(side, s.number, tail);
  }

  /** The starting board: 4-4-2 applied to the top side, then to the bottom side. */
  function InitialEditor(topSalts: seq<string>, bottomSalts: seq<string>): (e: Editor)
    requires |topSalts| == 11 && |bottomSalts| == 11
    ensures e.ball == Centre && e.arrows == []
  {
    ApplyFormation(ApplyFormation(EmptyBoard, Top, F442, topSalts), Bottom, F442, bottomSalts)
  }

  /** The starting board holds the top eleven, then the bottom eleven. */
  lemma InitialBoard(topSalts: seq<string>, bottomSalts: seq<string>)
    requires |topSalts| == 11 && |bottomSalts| == 11
    ensures InitialEditor(topSalts, bottomSalts).players
      == NewPlayers(Top, F442, topSalts) + NewPlayers(Bottom, F442, bottomSalts)
  {
    var tops := NewPlayers(Top, F442, topSalts);
    assert Filter([], TeamIsNot(Top)) == [];
    assert ApplyFormation(EmptyBoard, Top, F442, topSalts).players == [] + tops;
    assert [] + tops == tops;
    assert forall p :: p in tops ==> p.team == Top;
    FilterAll(tops, TeamIsNot(Bottom));
  }

  /* ---------------- the other board operations ---------------- */

  /** `clearAllPlayers`: no players, no arrows, the ball in the centre. */
  function ClearAllPlayers(e: Editor): (e': Editor)
    ensures e'.players == [] && e'.arrows == [] && e'.ball == Centre
  {
    EmptyBoard
  }

  /**
    The id of a custom player: side, "custom" and the timestamp. Its second
    token is not a number, so the player page decodes only the side.
   */
  function CustomId(side: Side, stamp: nat): (id: string)
    ensures Playback.InferMetaFromId(id) == Playback.Meta(side, 0, "P")
  {
    var tail := "_" + Decimal(stamp);
    var id := SideName(side) + "_custom_" + Decimal(stamp);
    assert id == SideName(side) + "_" + "custom" + tail;
    Playback.EncodedIdToken(side, "custom", tail);
    assert id == SideName(side) + "_" + ("custom" + tail);
    Playback.EncodedIdTeam(side, "custom" + tail);
    assert !IsDigit('c');
    id
  }

  /** Where a custom player appears: mid-width, just inside its own half. */
  function CustomSpot(side: Side): Point {
    if side == Top then Point(0.5, 0.42) else Point(0.5, 0.58)
  }

  /** `addPlayer`: one new player at the end of the list, everything before it untouched. */
  function AddPlayer(e: Editor, side: Side, number: int, name: string, stamp: nat): (e': Editor)
    ensures |e'.players| == |e.players| + 1
    ensures e'.players[..|e.players|] == e.players
    ensures var p := e'.players[|e.players|];
      p.team == side && p.number == number && p.name == name
      && p.nx == 0.5 && p.ny == (if side == Top then 0.42 else 0.58)
    ensures e'.ball == e.ball && e'.arrows == e.arrows
  {
    var at := CustomSpot(side);
    e.(players := e.players + [Player(CustomId(side, stamp), side, number, name, at.nx, at.ny)])
  }

  /** Removing the player just added gives back the earlier list, when its id was new. */
  lemma AddThenRemove(e: Editor, side: Side, number: int, name: string, stamp: nat)
    requires forall p :: p in e.players ==> p.id != CustomId(side, stamp)
    ensures RemovePlayer(AddPlayer(e, side, number, name, stamp), CustomId(side, stamp)) == e
  {
    var added := AddPlayer(e, side, number, name, stamp);
    assert added.players == e.players + [added.players[|e.players|]];
    FilterAppend(e.players, [added.players[|e.players|]], IdIsNot(CustomId(side, stamp)));
    FilterAll(e.players, IdIsNot(CustomId(side, stamp)));
    assert e.players + [] == e.players;
  }

  /**
    The player page cannot read a custom player's number or label back from
    its id: the second token is "custom", so it sees number 0 and label "P",
    though it does find the side.
   */
  lemma CustomIdDecodes(side: Side, stamp: nat)
    ensures Playback.InferMetaFromId(CustomId(side, stamp)) == Playback.Meta(side, 0, "P")
  {
    var tail := "_" + Decimal(stamp);
    assert CustomId(side, stamp) == SideName(side) + "_" + "custom" + tail;
    Playback.EncodedIdToken(side, "custom", tail);
    assert CustomId(side, stamp) == SideName(side) + "_" + ("custom" + tail);
    Playback.EncodedIdTeam(side, "custom" + tail);
    assert !IsDigit('c');
  }

  /** A partial update of a player: each field present replaces the player's own. */
  datatype Patch = Patch(name: Option<string>, number: Option<int>)

  function Patched(p: Player, patch: Patch): Player {
    p.(name := patch.name.GetOr(p.name), number := patch.number.GetOr(p.number))
  }

  function Moved(p: Player, nx: real, ny: real): Player {
    p.(nx := nx, ny := ny)
  }

  /** `editPlayer`: players with the id take the patch's name and number; nothing else changes. */
  function EditPlayer(e: Editor, id: string, patch: Patch): (e': Editor)
    ensures |e'.players| == |e.players| && e'.ball == e.ball && e'.arrows == e.arrows
    ensures forall i :: 0 <= i < |e.players| ==>
      var p, q := e.players[i], e'.players[i];
      && q.id == p.id && q.team == p.team && q.nx == p.nx && q.ny == p.ny
      && (p.id != id ==> q == p)
      && (p.id == id ==> q.name == patch.name.GetOr(p.name) && q.number == patch.number.GetOr(p.number))
  {
    e.(players := seq(|e.players|, i requires 0 <= i < |e.players| =>
      if e.players[i].id == id then Patched(e.players[i], patch) else e.players[i]))
  }

  /** `onMovePlayer`: players with the id take the new position; nothing else changes. */
  function MovePlayer(e: Editor, id: string, nx: real, ny: real): (e': Editor)
    ensures |e'.players| == |e.players| && e'.ball == e.ball && e'.arrows == e.arrows
    ensures forall i :: 0 <= i < |e.players| ==>
      var p, q := e.players[i], e'.players[i];
      && q.id == p.id && q.team == p.team && q.number == p.number && q.name == p.name
      && (p.id != id ==> q == p)
      && (p.id == id ==> q.nx == nx && q.ny == ny)
  {
    e.(players := seq(|e.players|, i requires 0 <= i < |e.players| =>
      if e.players[i].id == id then Moved(e.players[i], nx, ny) else e.players[i]))
  }

  /** Editing and moving touch different fields, so their order does not matter. */
  lemma EditMoveCommute(e: Editor, id: string, patch: Patch, id2: string, nx: real, ny: real)
    ensures EditPlayer(MovePlayer(e, id2, nx, ny), id, patch) == MovePlayer(EditPlayer(e, id, patch), id2, nx, ny)
  {
    var a := EditPlayer(MovePlayer(e, id2, nx, ny), id, patch);
    var b := MovePlayer(EditPlayer(e, id, patch), id2, nx, ny);
    assert a.players == b.players by {
      forall i | 0 <= i < |e.players|
        ensures a.players[i] == b.players[i]
      {
      }
    }
  }

  /** Only the last of two moves of the same player counts. */
  lemma LastMoveWins(e: Editor, id: string, x1: real, y1: real, x2: real, y2: real)
    ensures MovePlayer(MovePlayer(e, id, x1, y1), id, x2, y2) == MovePlayer(e, id, x2, y2)
  {
    var a := MovePlayer(MovePlayer(e, id, x1, y1), id, x2, y2);
    var b := MovePlayer(e, id, x2, y2);
    assert a.players == b.players by {
      forall i | 0 <= i < |e.players|
        ensures a.players[i] == b.players[i]
      {
      }
    }
  }

  /** Applying the same patch twice is applying it once. */
  lemma EditIdempotent(e: Editor, id: string, patch: Patch)
    ensures EditPlayer(EditPlayer(e, id, patch), id, patch) == EditPlayer(e, id, patch)
  {
    var a := EditPlayer(EditPlayer(e, id, patch), id, patch);
    var b := EditPlayer(e, id, patch);
    assert a.players == b.players by {
      forall i | 0 <= i < |e.players|
        ensures a.players[i] == b.players[i]
      {
      }
    }
  }

  /** `removePlayer`: every player with the id goes, every other player stays, in order. */
  function RemovePlayer(e: Editor, id: string): (e': Editor)
    ensures forall p :: p in e'.players <==> p in e.players && p.id != id
    ensures e'.ball == e.ball && e'.arrows == e.arrows
  {
    e.(players := Filter(e.players, IdIsNot(id)))
  }

  /** Removing is idempotent, and removes nothing when no player has the id. */
  lemma RemoveFacts(e: Editor, id: string)
    ensures RemovePlayer(RemovePlayer(e, id), id) == RemovePlayer(e, id)
    ensures (forall p :: p in e.players ==> p.id != id) ==> RemovePlayer(e, id) == e
  {
    FilterIdempotent(e.players, IdIsNot(id));
    if forall p :: p in e.players ==> p.id != id {
      FilterAll(e.players, IdIsNot(id));
    }
  }

  /** `onMoveBall`. */
  function MoveBall(e: Editor, nx: real, ny: real): (e': Editor)
    ensures e'.ball == Point(nx, ny) && e'.players == e.players && e'.arrows == e.arrows
  {
    e.(ball := Point(nx, ny))
  }

  /** `onAddArrow`: the arrow goes at the end. */
  function AddArrow(e: Editor, a: Arrow): (e': Editor)
    ensures |e'.arrows| == |e.arrows| + 1 && e'.arrows[|e.arrows|] == a
    ensures forall i :: 0 <= i < |e.arrows| ==> e'.arrows[i] == e.arrows[i]
    ensures e'.players == e.players && e'.ball == e.ball
  {
    e.(arrows := e.arrows + [a])
  }

  /** `clearArrows`. */
  function ClearArrows(e: Editor): (e': Editor)
    ensures e'.arrows == [] && e'.players == e.players && e'.ball == e.ball
  {
    e.(arrows := [])
  }

  /* ---------------- recording ---------------- */

  /** The scene the editor records: each player's id and position, in order, and the ball. */
  function CaptureFrame(e: Editor): (f: SceneFrame)
    ensures |f.players| == |e.players| && f.ball == e.ball
    ensures forall i :: 0 <= i < |e.players| ==>
      f.players[i] == Pose(e.players[i].id, e.players[i].nx, e.players[i].ny, NoTags)
  {
    SceneFrame(seq(|e.players|, i requires 0 <= i < |e.players| =>
      Pose(e.players[i].id, e.players[i].nx, e.players[i].ny, NoTags)), e.ball)
  }

  /**
    The player page's roster of a recorded scene has the editor's ids and
    positions in the editor's order; a formation player also keeps its team,
    number and label.
   */
  lemma CaptureThenRoster(e: Editor)
    ensures var roster := Playback.Roster(CaptureFrame(e));
      && |roster| == |e.players|
      && forall i :: 0 <= i < |e.players| ==>
        roster[i].id == e.players[i].id && roster[i].nx == e.players[i].nx && roster[i].ny == e.players[i].ny
  {
  }

  /**
    Edits never reach the player page: a recorded scene keeps only ids and
    positions, and `editPlayer` changes neither, so the roster read back
    after an edit is the roster before it. A renamed or renumbered player
    plays back under the name and number its id encodes.
   */
  lemma EditsInvisibleToPlayback(e: Editor, id: string, patch: Patch)
    ensures Playback.Roster(CaptureFrame(EditPlayer(e, id, patch))) == Playback.Roster(CaptureFrame(e))
  {
    assert CaptureFrame(EditPlayer(e, id, patch)) == CaptureFrame(e);
  }

  /** The roster read back from the scene of a board just set up in a formation carries the new players' metadata. */
  lemma FormationRosterMatches(e: Editor, side: Side, f: FormationName, salts: seq<string>, k: nat)
    requires |salts| == 11 && k < 11
    ensures var e' := ApplyFormation(e, side, f, salts);
      var i := |e'.players| - 11 + k;
      Playback.Roster(CaptureFrame(e'))[i] == e'.players[i]
  {
    var e' := ApplyFormation(e, side, f, salts);
    var i := |e'.players| - 11 + k;
    ApplyFormationSides(e, side, f, salts);
    assert e'.players[i] == NewPlayers(side, f, salts)[k];
    FormationIdsDecode(side, f, salts, k);
  }

  /** What pressing "save scene" leads to: the recorder afterwards, and whether the limit alert was shown. */
  datatype SaveOutcome = SaveOutcome(recorder: Recorder, alerted: bool)

  /** `saveCurrentScene`: at the editor's limit, alert and change nothing; otherwise ask the recorder to append the scene. */
  function SaveCurrentScene(e: Editor, rec: Recorder): (out: SaveOutcome)
    ensures out.alerted <==> |rec.scenes| >= MaxScenes
    ensures out.alerted ==> out.recorder == rec
    ensures !out.alerted ==> out.recorder == AddScene(rec, CaptureFrame(e))
  {
    if |rec.scenes| >= MaxScenes then SaveOutcome(rec, true)
    else SaveOutcome(AddScene(rec, CaptureFrame(e)), false)
  }

  /**
    With a recorder of the default capacity, the editor alerts exactly when
    the panel's "save scene" is disabled, and otherwise appends the board's
    scene. A larger capacity is still capped at ten by the editor.
   */
  lemma SaveMatchesPanel(e: Editor, rec: Recorder)
    ensures rec.maxScenes == DefaultMaxScenes ==> (SaveCurrentScene(e, rec).alerted <==> !RecordPanel.View(rec).save)
    ensures !SaveCurrentScene(e, rec).alerted && |rec.scenes| < rec.maxScenes ==>
      SaveCurrentScene(e, rec).recorder.scenes == rec.scenes + [CaptureFrame(e)]
    ensures |SaveCurrentScene(e, rec).recorder.scenes| <= if |rec.scenes| >= MaxScenes then |rec.scenes| else MaxScenes
  {
  }

  /** What pressing "finish" leads to. */
  datatype FinishOutcome = TooFewScenes | Navigate(state: LocationState)

  /** `finishRecording`: fewer than two scenes alert; otherwise the scenes and arrows are handed to the player page. */
  function FinishRecording(rec: Recorder, arrows: seq<Arrow>): (out: FinishOutcome)
    ensures out.TooFewScenes? <==> |rec.scenes| < 2
    ensures out.Navigate? ==> out.state.scenes == rec.scenes && out.state.arrows == Some(arrows)
  {
    if |rec.scenes| < 2 then TooFewScenes else Navigate(LocationState(rec.scenes, Some(arrows)))
  }

  /**
    Finishing navigates exactly when the panel's "finish" is enabled, and the
    player page opens a session on exactly the recorded scenes and drawn
    arrows.
   */
  lemma FinishThenOpen(rec: Recorder, arrows: seq<Arrow>)
    ensures FinishRecording(rec, arrows).Navigate? <==> RecordPanel.View(rec).finish
    ensures FinishRecording(rec, arrows).Navigate? ==>
      var page := Playback.Open(Some(FinishRecording(rec, arrows).state));
      page.Session? && page.scenes == rec.scenes && page.arrows == arrows
  {
  }
}
