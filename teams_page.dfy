/**
 * The teams page: the fetched list, the inline edit form, and the local list updates it applies
 * after the server accepts an edit or a delete.
 */
module TeamsPage {
  import opened Wrappers
  import opened Js
  import opened Seqs
  import opened Schema
  import TeamController

  /** A team as the page holds it. */
  datatype TeamCard = TeamCard(id: int, name: string, description: Option<string>, employeeCount: int)

  /** The inline edit form; the description copied from a team may be null. */
  datatype EditForm = EditForm(name: string, description: Option<string>)

  /** The form cancelEditing resets to. */
  const EmptyForm: EditForm := EditForm("", Some(""))

  /** `teams.map(t => t.id === id ? {...t, ...editForm} : t)`. */
  function MergeEdit(cards: seq<TeamCard>, id: int, form: EditForm): (r: seq<TeamCard>)
    ensures |r| == |cards|
    ensures forall i :: 0 <= i < |cards| ==> r[i].id == cards[i].id && r[i].employeeCount == cards[i].employeeCount
    ensures forall i :: 0 <= i < |cards| && cards[i].id == id ==> r[i].name == form.name && r[i].description == form.description
    ensures forall i :: 0 <= i < |cards| && cards[i].id != id ==> r[i] == cards[i]
  {
    seq(|cards|, i requires 0 <= i < |cards| =>
      if cards[i].id == id then cards[i].(name := form.name, description := form.description) else cards[i])
  }

  function IdIsNot(id: int): TeamCard -> bool {
    (t: TeamCard) => t.id != id
  }

  /** `teams.filter(t => t.id !== id)`. */
  function RemoveTeam(cards: seq<TeamCard>, id: int): (r: seq<TeamCard>)
    ensures |r| <= |cards|
    ensures forall t :: t in r <==> t in cards && t.id != id
  {
    Filter(cards, IdIsNot(id))
  }

  /** Removing a team keeps the others in their order: it works part by part. */
  lemma RemoveTeamKeepsOrder(a: seq<TeamCard>, b: seq<TeamCard>, id: int)
    ensures RemoveTeam(a + b, id) == RemoveTeam(a, id) + RemoveTeam(b, id)
  {
    FilterConcat(a, b, IdIsNot(id));
  }

  /** Removing a team that is not on the page leaves the list as it was. */
  lemma RemoveAbsentTeam(cards: seq<TeamCard>, id: int)
    requires forall t :: t in cards ==> t.id != id
    ensures RemoveTeam(cards, id) == cards
  {
    FilterKeepsAll(cards, IdIsNot(id));
  }

  /** The JSON value a form field travels as: a string, or `null` for a null description. */
  function BodyValue(v: Option<string>): JsValue {
    if v.Some? then Str(v.value) else Null
  }

  /**
   * The page and the server agree on the description it saves, but on the name only when the
   * form's name is non-empty: with an empty name the page shows "" while the server keeps the
   * stored name.
   */
  lemma LocalEditMatchesServerUnlessNameEmpty(existing: Team, form: EditForm)
    ensures var server := TeamController.UpdatedTeam(existing, Str(form.name), BodyValue(form.description));
      && server.description == form.description
      && (server.name == form.name <==> form.name != "" || existing.name == "")
  {
  }

  /** The page's state: the list, the team being edited, and the edit form. */
  class Page {
    var teams: seq<TeamCard>
    var editTeamId: Option<int>
    var editForm: EditForm

    constructor ()
      ensures teams == [] && editTeamId == None && editForm == EmptyForm
    {
      teams, editTeamId, editForm := [], None, EmptyForm;
    }

    /** startEditing: remember the team and copy its name and description into the form. */
    method StartEditing(team: TeamCard)
      modifies this`editTeamId, this`editForm
      ensures editTeamId == Some(team.id) && editForm == EditForm(team.name, team.description)
    {
      editTeamId := Some(team.id);
      editForm := EditForm(team.name, team.description);
    }

    /** cancelEditing: no team is being edited and the form is blank. */
    method CancelEditing()
      modifies this`editTeamId, this`editForm
      ensures editTeamId == None && editForm == EmptyForm
    {
      editTeamId := None;
      editForm := EmptyForm;
    }

    /** handleInputChange: the named field takes the typed value; the other keeps its value. */
    method HandleInputChange(field: string, value: string)
      modifies this`editForm
      ensures field == "name" ==> editForm == EditForm(value, old(editForm).description)
      ensures field == "description" ==> editForm == EditForm(old(editForm).name, Some(value))
      ensures field != "name" && field != "description" ==> editForm == old(editForm)
    {
      if field == "name" {
        editForm := editForm.(name := value);
      } else if field == "description" {
        editForm := editForm.(description := Some(value));
      }
    }

    /**
     * saveEdit, given how the PUT ended (a status, or None when the request threw): on 200 the
     * list takes the form's values and the editor closes; otherwise nothing changes.
     */
    method SaveEdit(id: int, status: Option<int>)
      modifies this`teams, this`editTeamId, this`editForm
      ensures status == Some(200) ==>
        teams == MergeEdit(old(teams), id, old(editForm)) && editTeamId == None && editForm == EmptyForm
      ensures status != Some(200) ==>
        teams == old(teams) && editTeamId == old(editTeamId) && editForm == old(editForm)
    {
      if status == Some(200) {
        teams := MergeEdit(teams, id, editForm);
        CancelEditing();
      }
    }

    /** deleteTeam, given how the DELETE ended: on 200 the team leaves the list; otherwise nothing changes. */
    method DeleteTeam(id: int, status: Option<int>)
      modifies this`teams
      ensures status == Some(200) ==> teams == RemoveTeam(old(teams), id)
      ensures status != Some(200) ==> teams == old(teams)
    {
      if status == Some(200) {
        teams := RemoveTeam(teams, id);
      }
    }
  }
}
