/**
 * Player records and the day buckets that hold them.
 *
 * A record is one row of a day's table: a player's career totals and rates,
 * birth year and franchises. The buckets are laid out as the loader builds
 * them: twelve months, each with one bucket per day of the 366-day calendar.
 */
module Players {
  import opened Calendar

  datatype Record = Record(
    name: string,
    born: int,
    franchises: string,
    war: real,
    allStarGames: int,
    gamesBatted: int,
    gamesPitched: int,
    atBats: int,
    hits: int,
    homeRuns: int,
    runsBattedIn: int,
    stolenBases: int,
    walks: int,
    battingAverage: real,
    onBase: real,
    slugging: real,
    ops: real,
    wins: int,
    losses: int,
    era: real,
    eraPlus: real,
    whip: real,
    saves: int,
    strikeouts: int,
    inningsPitched: real)

  /** The numeric columns a statistic can be read from. */
  datatype Column =
    | War | AllStarGames | GamesBatted | GamesPitched
    | AtBats | Hits | HomeRuns | RunsBattedIn | StolenBases | Walks
    | BattingAverage | OnBase | Slugging | Ops
    | Wins | Losses | Era | EraPlus | Whip | Saves | Strikeouts | InningsPitched

  function Value(r: Record, c: Column): real {
    match c
    case War => r.war
    case AllStarGames => r.allStarGames as real
    case GamesBatted => r.gamesBatted as real
    case GamesPitched => r.gamesPitched as real
    case AtBats => r.atBats as real
    case Hits => r.hits as real
    case HomeRuns => r.homeRuns as real
    case RunsBattedIn => r.runsBattedIn as real
    case StolenBases => r.stolenBases as real
    case Walks => r.walks as real
    case BattingAverage => r.battingAverage
    case OnBase => r.onBase
    case Slugging => r.slugging
    case Ops => r.ops
    case Wins => r.wins as real
    case Losses => r.losses as real
    case Era => r.era
    case EraPlus => r.eraPlus
    case Whip => r.whip
    case Saves => r.saves as real
    case Strikeouts => r.strikeouts as real
    case InningsPitched => r.inningsPitched
  }

  /** The counting columns that weight the rate averages are never negative. */
  predicate NonNegativeCounts(r: Record) {
    r.atBats >= 0 && r.walks >= 0 && r.hits >= 0 && r.inningsPitched >= 0.0
  }

  /** All day buckets: twelve months of 31, 29, 31, ... buckets. */
  type Buckets = seq<seq<seq<Record>>>

  predicate WellShaped(allData: Buckets) {
    |allData| == 12 && forall m :: 0 <= m < 12 ==> |allData[m]| == MonthLengths[m]
  }

  /** The bucket of a calendar date (the year plays no part). */
  function BucketOf(allData: Buckets, d: Date): seq<Record>
    requires WellShaped(allData) && ValidDate(d)
  {
    allData[d.month - 1][d.day - 1]
  }
}
