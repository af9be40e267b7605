/**
  The shared records of the editor and the player: the two sides of the
  pitch, a recorded scene (`SceneFrame`), the draw modes and arrows, and the
  payload the editor hands to the player page.
 */
module Types {
  import opened Wrappers

  /** The two teams; the source spells them "top" and "bottom". */
  datatype Side = Top | Bottom

  function SideName(s: Side): string {
    match s
    case Top => "top"
    case Bottom => "bottom"
  }

  /** A normalised point: (0,0) is the top-left corner of the pitch, (1,1) the bottom-right. */
  datatype Point = Point(nx: real, ny: real)

  const Centre: Point := Point(0.5, 0.5)

  /**
    Fields a payload may carry on a recorded player beyond `id, nx, ny`.
    The editor never writes them; the player page reads them when present.
   */
  datatype PoseTags = PoseTags(team: Option<Side>, number: Option<int>, name: Option<string>)

  const NoTags: PoseTags := PoseTags(None, None, None)

  /** A player on the board: identity, team, jersey number, label and normalised position. */
  datatype Player = Player(id: string, team: Side, number: int, name: string, nx: real, ny: real)

  /** One player's recorded position. */
  datatype Pose = Pose(id: string, nx: real, ny: real, tags: PoseTags)

  /** One scene: every player's position plus the ball's. */
  datatype SceneFrame = SceneFrame(players: seq<Pose>, ball: Point)

  /** The arrow tool currently armed on the board. */
  datatype DrawMode = NoMode | PassMode | RunMode

  datatype ArrowKind = PassArrow | RunArrow

  /** A drawn arrow; endpoints are normalised points. */
  datatype Arrow = Arrow(id: string, kind: ArrowKind, from: Point, to: Point, curved: bool)

  /** The navigation payload of the player route; `arrows` is optional in it. */
  datatype LocationState = LocationState(scenes: seq<SceneFrame>, arrows: Option<seq<Arrow>>)
}
