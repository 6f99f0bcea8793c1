/**
 * The adjacency rule of an auto tile and its asymmetric subset relation
 * (bevy_tileset_tiles/src/auto/rules.rs).
 */
module Rules {
  import opened Wrappers

  /** The eight compass directions a rule speaks about. */
  datatype Direction =
    North | East | South | West | NorthEast | NorthWest | SouthEast | SouthWest

  /**
   * Per direction: `Some(true)` means a matching neighbour must be there,
   * `Some(false)` that it must not be there, `None` that the direction is ignored.
   * The derived `Default` leaves every direction `None`.
   */
  datatype AutoTileRule = AutoTileRule(
    north: Option<bool>,
    east: Option<bool>,
    south: Option<bool>,
    west: Option<bool>,
    northEast: Option<bool>,
    northWest: Option<bool>,
    southEast: Option<bool>,
    southWest: Option<bool>)

  /** The field of `rule` for direction `d`. */
  function Get(rule: AutoTileRule, d: Direction): Option<bool> {
    match d
    case North => rule.north
    case East => rule.east
    case South => rule.south
    case West => rule.west
    case NorthEast => rule.northEast
    case NorthWest => rule.northWest
    case SouthEast => rule.southEast
    case SouthWest => rule.southWest
  }

  /** `rule` with the field for direction `d` replaced by `v`. */
  function Set(rule: AutoTileRule, d: Direction, v: Option<bool>): (r: AutoTileRule)
    ensures Get(r, d) == v
    ensures forall e :: e != d ==> Get(r, e) == Get(rule, e)
  {
    match d
    case North => rule.(north := v)
    case East => rule.(east := v)
    case South => rule.(south := v)
    case West => rule.(west := v)
    case NorthEast => rule.(northEast := v)
    case NorthWest => rule.(northWest := v)
    case SouthEast => rule.(southEast := v)
    case SouthWest => rule.(southWest := v)
  }

  /** Two rules are equal when they agree in every direction. */
  lemma RuleExtensionality(a: AutoTileRule, b: AutoTileRule)
    requires forall d :: Get(a, d) == Get(b, d)
    ensures a == b
  {
    assert Get(a, North) == Get(b, North) && Get(a, East) == Get(b, East);
    assert Get(a, South) == Get(b, South) && Get(a, West) == Get(b, West);
    assert Get(a, NorthEast) == Get(b, NorthEast) && Get(a, NorthWest) == Get(b, NorthWest);
    assert Get(a, SouthEast) == Get(b, SouthEast) && Get(a, SouthWest) == Get(b, SouthWest);
  }

  /** `AutoTileRule::default()`: every direction ignored. */
  function Default(): (r: AutoTileRule)
    ensures forall d :: Get(r, d) == None
  {
    AutoTileRule(None, None, None, None, None, None, None, None)
  }

  /** `default_false`: every direction must not match. */
  function DefaultFalse(): (r: AutoTileRule)
    ensures forall d :: Get(r, d) == Some(false)
  {
    AutoTileRule(Some(false), Some(false), Some(false), Some(false),
                 Some(false), Some(false), Some(false), Some(false))
  }

  /** `default_true`: every direction must match. */
  function DefaultTrue(): (r: AutoTileRule)
    ensures forall d :: Get(r, d) == Some(true)
  {
    AutoTileRule(Some(true), Some(true), Some(true), Some(true),
                 Some(true), Some(true), Some(true), Some(true))
  }

  /**
   * `check_bool`: does candidate field `lhs` accept generated field `rhs`?
   * An unset candidate accepts anything; `Some(false)` is also satisfied by an
   * unset generated field, `Some(true)` never is.
   */
  predicate CheckBool(lhs: Option<bool>, rhs: Option<bool>) {
    match lhs
    case Some(l) => (match rhs
                     case Some(r) => l == r
                     case None => !l)
    case None => true
  }

  /** The three cases of `check_bool`, stated per candidate value. */
  lemma CheckBoolCases(lhs: Option<bool>, rhs: Option<bool>)
    ensures lhs == None ==> CheckBool(lhs, rhs)
    ensures lhs == Some(true) ==> (CheckBool(lhs, rhs) <==> rhs == Some(true))
    ensures lhs == Some(false) ==> (CheckBool(lhs, rhs) <==> rhs != Some(true))
  {
  }

  /**
   * `is_subset_of`: is candidate rule `a` satisfied by generated rule `b`?
   * Order matters: the relation is not symmetric.
   */
  predicate IsSubsetOf(a: AutoTileRule, b: AutoTileRule) {
    && CheckBool(a.north, b.north)
    && CheckBool(a.south, b.south)
    && CheckBool(a.east, b.east)
    && CheckBool(a.west, b.west)
    && CheckBool(a.northEast, b.northEast)
    && CheckBool(a.northWest, b.northWest)
    && CheckBool(a.southEast, b.southEast)
    && CheckBool(a.southWest, b.southWest)
  }

  /** `is_subset_of` is exactly the conjunction of the eight per-direction checks. */
  lemma IsSubsetOfPerDirection(a: AutoTileRule, b: AutoTileRule)
    ensures IsSubsetOf(a, b) <==> forall d :: CheckBool(Get(a, d), Get(b, d))
  {
    if forall d :: CheckBool(Get(a, d), Get(b, d)) {
      assert CheckBool(Get(a, North), Get(b, North));
      assert CheckBool(Get(a, East), Get(b, East));
      assert CheckBool(Get(a, South), Get(b, South));
      assert CheckBool(Get(a, West), Get(b, West));
      assert CheckBool(Get(a, NorthEast), Get(b, NorthEast));
      assert CheckBool(Get(a, NorthWest), Get(b, NorthWest));
      assert CheckBool(Get(a, SouthEast), Get(b, SouthEast));
      assert CheckBool(Get(a, SouthWest), Get(b, SouthWest));
    }
  }

  /** The all-unset default rule is a subset of every rule. */
  lemma DefaultIsSubsetOfAll(x: AutoTileRule)
    ensures IsSubsetOf(Default(), x)
  {
  }

  /** Every rule is a subset of itself. */
  lemma IsSubsetOfReflexive(a: AutoTileRule)
    ensures IsSubsetOf(a, a)
  {
  }

  /** The documented example: {n:T} is a subset of {n:T, e:T, s:F} but not the other way round. */
  lemma IsSubsetOfNotSymmetric()
    ensures var a := Default().(north := Some(true));
            var b := Default().(north := Some(true), east := Some(true), south := Some(false));
            IsSubsetOf(a, b) && !IsSubsetOf(b, a)
  {
  }

  /**
   * The relation is not transitive either: a "must not" candidate passes an
   * unset field, the unset field passes a "must", but "must not" fails "must".
   */
  lemma IsSubsetOfNotTransitive()
    ensures var a := Default().(north := Some(false));
            var b := Default();
            var c := Default().(north := Some(true));
            IsSubsetOf(a, b) && IsSubsetOf(b, c) && !IsSubsetOf(a, c)
  {
  }

  /** `default_true` is a subset of `x` exactly when every direction of `x` is `Some(true)`. */
  lemma DefaultTrueSubsetIff(x: AutoTileRule)
    ensures IsSubsetOf(DefaultTrue(), x) <==> forall d :: Get(x, d) == Some(true)
  {
    IsSubsetOfPerDirection(DefaultTrue(), x);
  }

  /**
   * `default_false` is a subset of every rule that has no `Some(true)` field,
   * the default rule among them, and of no other rule.
   */
  lemma DefaultFalseSubsetIff(x: AutoTileRule)
    ensures IsSubsetOf(DefaultFalse(), x) <==> forall d :: Get(x, d) != Some(true)
    ensures IsSubsetOf(DefaultFalse(), Default())
  {
    IsSubsetOfPerDirection(DefaultFalse(), x);
  }
}
