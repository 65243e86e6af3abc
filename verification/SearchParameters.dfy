/** The parameters of a search: their name and their values. */
module SearchParameters {
  import opened Collections
  import opened Filters
  import opened Binding

  datatype SearchParams =
    | IcrsParams(ra: real, dec: real)
    | DesignationParams(designation: string)
    | CombinedParams(parts: seq<SearchParams>)

  function Name(p: SearchParams): string
    decreases p, 0
  {
    match p
    case IcrsParams(_, _) => "icrs"
    case DesignationParams(_) => "designation"
    case CombinedParams(parts) =>
      var joined := JoinedNames(parts);
      if joined == "" then "combined" else joined
  }

  function JoinedNames(parts: seq<SearchParams>): string
    decreases parts, 0
  {
    if parts == [] then "" else if |parts| == 1 then Name(parts[0]) else Name(parts[0]) + "_" + JoinedNames(parts[1..])
  }

  /** What `dict.update` leaves: the later value of a key. */
  function Update(a: Params, b: Params): Params {
    Params(if b.ra.Some? then b.ra else a.ra, if b.dec.Some? then b.dec else a.dec,
      if b.design.Some? then b.design else a.design)
  }

  const NO_PARAMS: Params := Params(None, None, None)

  function GetParams(p: SearchParams): Params
    decreases p, 0
  {
    match p
    case IcrsParams(ra, dec) => Params(Some(ra), Some(dec), None)
    case DesignationParams(designation) => Params(None, None, Some(designation))
    case CombinedParams(parts) => MergedParams(parts)
  }

  function MergedParams(parts: seq<SearchParams>): Params
    decreases parts, 0
  {
    if parts == [] then NO_PARAMS else Update(GetParams(parts[0]), MergedParams(parts[1..]))
  }

  lemma {:induction false} MergedLast(parts: seq<SearchParams>, i: nat)
    requires i < |parts|
    ensures MergedParams(parts[..i + 1]) == Update(MergedParams(parts[..i]), GetParams(parts[i]))
  {
    if i == 0 {
      assert parts[..1] == [parts[0]] && MergedParams([parts[0]][1..]) == NO_PARAMS;
    } else {
      assert parts[..i + 1][1..] == parts[1..][..i] && parts[..i][1..] == parts[1..][..i - 1];
      MergedLast(parts[1..], i - 1);
    }
  }

  /** `CombinedSearchParams.get_params`: a dict updated by each part in turn. */
  method CollectParams(p: SearchParams) returns (params: Params)
    ensures params == GetParams(p)
    decreases p
  {
    match p
    case CombinedParams(parts) =>
      params := NO_PARAMS;
      for i := 0 to |parts|
        invariant params == MergedParams(parts[..i])
      {
        var own := CollectParams(parts[i]);
        MergedLast(parts, i);
        params := Update(params, own);
      }
      assert parts[..|parts|] == parts;
    case _ => params := GetParams(p);
  }

  /** The simple parameters inside a combination, however nested, in order. */
  function Leaves(p: SearchParams): seq<SearchParams>
    decreases p, 0
  {
    if p.CombinedParams? then LeavesOf(p.parts) else [p]
  }

  function LeavesOf(parts: seq<SearchParams>): seq<SearchParams>
    decreases parts, 0
  {
    if parts == [] then [] else Leaves(parts[0]) + LeavesOf(parts[1..])
  }

  lemma {:induction false} MergedAppend(a: seq<SearchParams>, b: seq<SearchParams>)
    ensures MergedParams(a + b) == Update(MergedParams(a), MergedParams(b))
  {
    if a == [] {
      assert a + b == b;
    } else {
      assert (a + b)[1..] == a[1..] + b;
      MergedAppend(a[1..], b);
    }
  }

  /** Nesting does not matter: of each key the last simple part that has it wins. */
  lemma {:induction false} NestingIsFlat(p: SearchParams)
    ensures GetParams(p) == MergedParams(Leaves(p))
    decreases p, 0
  {
    if p.CombinedParams? {
      NestingOfParts(p.parts);
    } else {
      assert [p][1..] == [];
      assert MergedParams([p][1..]) == NO_PARAMS;
    }
  }

  lemma {:induction false} NestingOfParts(parts: seq<SearchParams>)
    ensures MergedParams(parts) == MergedParams(LeavesOf(parts))
    decreases parts, 0
  {
    if parts != [] {
      NestingIsFlat(parts[0]);
      NestingOfParts(parts[1..]);
      MergedAppend(Leaves(parts[0]), LeavesOf(parts[1..]));
    }
  }

  /** No simple part after the i-th is of its kind. */
  predicate LastOfItsKind(leaves: seq<SearchParams>, i: nat)
    requires i < |leaves|
  {
    && (forall l | l in leaves :: !l.CombinedParams?)
    && forall j | i < j < |leaves| :: leaves[j].IcrsParams? != leaves[i].IcrsParams?
  }

  /** The last position and the last designation are those searched for. */
  lemma {:induction false} LastWins(leaves: seq<SearchParams>, i: nat)
    requires i < |leaves| && LastOfItsKind(leaves, i)
    ensures var (x, params) := (leaves[i], MergedParams(leaves));
      && (x.IcrsParams? ==> params.ra == Some(x.ra) && params.dec == Some(x.dec))
      && (x.DesignationParams? ==> params.design == Some(x.designation))
  {
    assert forall l | l in leaves[1..] :: l in leaves;
    assert leaves[i] in leaves;
    if i > 0 {
      assert leaves[i] == leaves[1..][i - 1] && forall j | i - 1 < j < |leaves[1..]| :: leaves[1..][j] == leaves[j + 1];
      LastWins(leaves[1..], i - 1);
    } else {
      forall l | l in leaves[1..] ensures l.IcrsParams? != leaves[0].IcrsParams? {
        var j :| 0 <= j < |leaves[1..]| && leaves[1..][j] == l;
        assert l == leaves[j + 1];
      }
      Lacking(leaves[1..]);
    }
  }

  /** Without a position there is none to search for, and no designation without one. */
  lemma {:induction false} Lacking(leaves: seq<SearchParams>)
    requires forall l | l in leaves :: !l.CombinedParams?
    ensures (forall l | l in leaves :: l.IcrsParams?) ==> MergedParams(leaves).design == None
    ensures (forall l | l in leaves :: l.DesignationParams?) ==>
      MergedParams(leaves).ra == None && MergedParams(leaves).dec == None
  {
    if leaves != [] {
      assert leaves[0] in leaves && forall l | l in leaves[1..] :: l in leaves;
      Lacking(leaves[1..]);
    }
  }

  /** The names under which the usual searches are known. */
  lemma UsualNames(position: SearchParams, designation: SearchParams)
    requires position.IcrsParams? && designation.DesignationParams?
    ensures Name(CombinedParams([])) == "combined" && Name(CombinedParams([position])) == "icrs"
    ensures Name(CombinedParams([designation])) == "designation"
    ensures Name(CombinedParams([position, designation])) == "icrs" + "_" + "designation"
  {
    assert [position, designation][1..] == [designation];
    assert JoinedNames([designation]) == "designation";
    assert JoinedNames([position, designation]) == "icrs" + "_" + "designation";
  }

  /** A name can stand between quotes in a query text: it has no quote and no per cent sign, and it is not empty. */
  predicate Safe(name: string) {
    name != "" && forall i | 0 <= i < |name| :: name[i] != '%' && name[i] != '\''
  }

  lemma {:induction false} NameIsSafe(p: SearchParams)
    ensures Safe(Name(p)) && Plain(Name(p))
    decreases p, 0
  {
    if p.CombinedParams? && p.parts != [] {
      JoinedNamesSafe(p.parts);
    }
  }

  lemma {:induction false} JoinedNamesSafe(parts: seq<SearchParams>)
    requires parts != []
    ensures Safe(JoinedNames(parts))
    decreases parts, 0
  {
    NameIsSafe(parts[0]);
    if |parts| > 1 {
      JoinedNamesSafe(parts[1..]);
    }
  }
}
