/**
 * The `GET /pilots` endpoint of the backend (backend/main.py): every pilot
 * document gets its `_id` as text and a `team` taken from the teams
 * collection when it references one.
 */
module Pilots {
  import opened Wrappers
  import opened Py
  import opened Auth

  /** The label for a pilot without a known team. */
  const NoTeam: string := "Sin equipo"

  /** A document as a dict. */
  type Doc = map<string, PyVal>

  /** Documents the database hands back carry an ObjectId `_id`. */
  predicate HasOid(d: Doc)
  {
    "_id" in d && d["_id"].PObjectId?
  }

  /** `str(d["_id"])`. */
  function IdText(d: Doc): string
    requires HasOid(d)
  {
    d["_id"].hex
  }

  /**
   * `{str(t["_id"]): t["name"] for t in teams}`: None when some team has
   * no name (the KeyError aborts the request); otherwise every team's id
   * is a key and nothing else is.
   */
  function TeamNames(teams: seq<Doc>): (r: Option<map<string, PyVal>>)
    requires forall i :: 0 <= i < |teams| ==> HasOid(teams[i])
    ensures r.None? <==> exists i :: 0 <= i < |teams| && "name" !in teams[i]
    ensures r.Some? ==> forall k :: k in r.value <==> exists i :: 0 <= i < |teams| && IdText(teams[i]) == k
    decreases |teams|
  {
    if |teams| == 0 then Some(map[])
    else
      var init := teams[..|teams| - 1];
      var last := teams[|teams| - 1];
      assert forall i :: 0 <= i < |init| ==> init[i] == teams[i];
      match TeamNames(init)
      case None => None
      case Some(m) =>
        if "name" !in last then None
        else Some(m[IdText(last) := last["name"]])
  }

  /** A team's id maps to its name when no later team has the same id: later teams win. */
  lemma {:induction false} TeamNamesLastWins(teams: seq<Doc>, i: nat)
    requires forall j :: 0 <= j < |teams| ==> HasOid(teams[j])
    requires TeamNames(teams).Some?
    requires i < |teams| && forall j :: i < j < |teams| ==> IdText(teams[j]) != IdText(teams[i])
    ensures "name" in teams[i]
    ensures TeamNames(teams).value[IdText(teams[i])] == teams[i]["name"]
    decreases |teams|
  {
    var init := teams[..|teams| - 1];
    assert forall j :: 0 <= j < |init| ==> init[j] == teams[j];
    if i < |teams| - 1 {
      TeamNamesLastWins(init, i);
    }
  }

  /** The `team` a pilot is given under the team-name map `names`. */
  function TeamOf(p: Doc, names: map<string, PyVal>): (r: PyVal)
    ensures r == PStr(NoTeam) || r in names.Values || ("team" in p && r == p["team"])
    ensures "team_id" in p && PyTruthy(p["team_id"]) ==> r == PStr(NoTeam) || r in names.Values
    ensures ("team_id" !in p || !PyTruthy(p["team_id"])) && "team" !in p ==> r == PStr(NoTeam)
  {
    if "team_id" in p && PyTruthy(p["team_id"]) then
      match PyStr(p["team_id"])
      case Some(key) => DictGet(names, key, PStr(NoTeam))
      case None => PStr(NoTeam)
    else DictGet(p, "team", PStr(NoTeam))
  }

  /**
   * One iteration of the loop: `_id` becomes its text, `team` is set, and
   * every other key keeps its value.
   */
  function JoinPilot(p: Doc, names: map<string, PyVal>): (r: Doc)
    requires HasOid(p)
    ensures r.Keys == p.Keys + {"team"}
    ensures r["_id"] == PStr(p["_id"].hex)
    ensures r["team"] == TeamOf(p, names)
    ensures forall k :: k in p && k != "_id" && k != "team" ==> r[k] == p[k]
  {
    p["_id" := PStr(p["_id"].hex)]["team" := TeamOf(p, names)]
  }

  /**
   * A pilot whose truthy `team_id` (an ObjectId or its text) is the id of
   * a team shows that team's name; with repeated ids, the last such team's.
   */
  lemma JoinKnownTeam(p: Doc, teams: seq<Doc>, i: nat)
    requires HasOid(p) && forall j :: 0 <= j < |teams| ==> HasOid(teams[j])
    requires TeamNames(teams).Some?
    requires i < |teams| && forall j :: i < j < |teams| ==> IdText(teams[j]) != IdText(teams[i])
    requires "team_id" in p && PyTruthy(p["team_id"]) && PyStr(p["team_id"]) == Some(IdText(teams[i]))
    ensures JoinPilot(p, TeamNames(teams).value)["team"] == teams[i]["name"]
  {
    TeamNamesLastWins(teams, i);
  }

  /** A truthy `team_id` that matches no team gives "Sin equipo", whatever `team` held. */
  lemma JoinUnknownTeam(p: Doc, teams: seq<Doc>)
    requires HasOid(p) && forall j :: 0 <= j < |teams| ==> HasOid(teams[j])
    requires TeamNames(teams).Some?
    requires "team_id" in p && PyTruthy(p["team_id"])
    requires forall j :: 0 <= j < |teams| ==> PyStr(p["team_id"]) != Some(IdText(teams[j]))
    ensures JoinPilot(p, TeamNames(teams).value)["team"] == PStr(NoTeam)
  {
  }

  /**
   * Without a truthy `team_id`, `team` keeps its value, even a falsy one,
   * and is "Sin equipo" only when the key was absent.
   */
  lemma JoinWithoutTeamId(p: Doc, names: map<string, PyVal>)
    requires HasOid(p)
    requires !("team_id" in p && PyTruthy(p["team_id"]))
    ensures "team" in p ==> JoinPilot(p, names)["team"] == p["team"]
    ensures "team" !in p ==> JoinPilot(p, names)["team"] == PStr(NoTeam)
  {
  }

  /** `jsonify` of a list of documents. */
  function AsList(ds: seq<Doc>): (v: PyVal)
    ensures v.PList? && |v.items| == |ds|
    ensures forall i :: 0 <= i < |ds| ==> v.items[i] == PDict(ds[i])
  {
    PList(seq(|ds|, i requires 0 <= i < |ds| => PDict(ds[i])))
  }

  /**
   * `list_pilots`: with the team-name map built, each pilot is rewritten in
   * place, in order, and the list is returned; a team without a name makes
   * it a server error before any pilot is touched.
   */
  method ListPilots(pilots: array<Doc>, teams: seq<Doc>) returns (resp: Response)
    requires forall i :: 0 <= i < pilots.Length ==> HasOid(pilots[i])
    requires forall i :: 0 <= i < |teams| ==> HasOid(teams[i])
    modifies pilots
    ensures TeamNames(teams).None? ==> resp == ServerError && pilots[..] == old(pilots[..])
    ensures TeamNames(teams).Some? ==>
      && (forall i :: 0 <= i < pilots.Length ==> pilots[i] == JoinPilot(old(pilots[i]), TeamNames(teams).value))
      && resp == Json(200, AsList(pilots[..]))
  {
    var names := TeamNames(teams);
    if names.None? {
      return ServerError;
    }
    var i := 0;
    while i < pilots.Length
      invariant 0 <= i <= pilots.Length
      invariant forall j :: 0 <= j < i ==> pilots[j] == JoinPilot(old(pilots[j]), names.value)
      invariant forall j :: i <= j < pilots.Length ==> pilots[j] == old(pilots[j])
    {
      pilots[i] := JoinPilot(pilots[i], names.value);
      i := i + 1;
    }
    resp := Json(200, AsList(pilots[..]));
  }
}
