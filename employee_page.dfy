/**
 * The employee list page: the search and team filter applied to the fetched list, and the
 * three panels (add, edit, delete) its toolbar opens.
 */
module EmployeePage {
  import opened Wrappers
  import opened Seqs

  /** A team as the page sees it inside an employee. */
  datatype TeamTag = TeamTag(name: string)

  /**
   * An employee as the page receives it from the list endpoint. The names are always set (the
   * server refuses empty ones and never clears them); email may be null; teams may be absent.
   */
  datatype EmployeeCard = EmployeeCard(firstName: string, lastName: string, email: Option<string>, teams: Option<seq<TeamTag>>)

  /** The two search inputs. */
  datatype SearchQuery = SearchQuery(search: string, department: string)

  /** The department choice that asks for employees without a team. */
  const NoTeam: string := "No in a team now"

  /** `toLowerCase` on ASCII letters. */
  function LowerChar(c: char): char {
    if 'A' <= c <= 'Z' then (c as int + 32) as char else c
  }

  function Lower(s: string): (r: string)
    ensures |r| == |s|
    ensures forall i :: 0 <= i < |s| ==> r[i] == LowerChar(s[i])
  {
    seq(|s|, i requires 0 <= i < |s| => LowerChar(s[i]))
  }

  /** `s.includes(sub)`, scanning from the left. */
  function Includes(s: string, sub: string): (r: bool)
    ensures sub <= s ==> r
    ensures r ==> |sub| <= |s|
    decreases |s|
  {
    sub <= s || (s != [] && Includes(s[1..], sub))
  }

  /** `sub` occurs in `s` starting at position `i`. */
  predicate OccursAt(s: string, sub: string, i: int) {
    0 <= i && i + |sub| <= |s| && s[i..i + |sub|] == sub
  }

  /** `includes` is the substring test: `sub` occurs somewhere in `s`. */
  lemma {:induction false} IncludesIsSubstring(s: string, sub: string)
    ensures Includes(s, sub) <==> exists i :: OccursAt(s, sub, i)
  {
    if sub <= s {
      assert OccursAt(s, sub, 0);
    }
    if s != [] {
      IncludesIsSubstring(s[1..], sub);
      if Includes(s[1..], sub) {
        var i :| OccursAt(s[1..], sub, i);
        assert OccursAt(s, sub, i + 1);
      }
      if exists i :: OccursAt(s, sub, i) {
        var i :| OccursAt(s, sub, i);
        if i > 0 {
          assert OccursAt(s[1..], sub, i - 1);
        } else {
          assert sub <= s;
        }
      }
    } else if exists i :: OccursAt(s, sub, i) {
      var i :| OccursAt(s, sub, i);
      assert sub == [];
    }
  }

  /** The first or the last name contains the query, ignoring case. */
  predicate NameHit(e: EmployeeCard, search: string)
    ensures NameHit(e, search) <==>
      (exists i :: OccursAt(Lower(e.firstName), Lower(search), i)) || (exists i :: OccursAt(Lower(e.lastName), Lower(search), i))
  {
    IncludesIsSubstring(Lower(e.firstName), Lower(search));
    IncludesIsSubstring(Lower(e.lastName), Lower(search));
    Includes(Lower(e.firstName), Lower(search)) || Includes(Lower(e.lastName), Lower(search))
  }

  /** `searchInText`: a name or the email contains the query, ignoring case. */
  predicate TextMatch(e: EmployeeCard, search: string)
    ensures TextMatch(e, search) <==>
      NameHit(e, search) || (e.email.Some? && exists i :: OccursAt(Lower(e.email.value), Lower(search), i))
  {
    NameHit(e, search) || (e.email.Some? && (IncludesIsSubstring(Lower(e.email.value), Lower(search));
                                             Includes(Lower(e.email.value), Lower(search))))
  }

  /** `teamMatch`: the "no team" choice, a team name, or no team filter at all. */
  predicate TeamMatch(e: EmployeeCard, department: string) {
    if department == NoTeam then e.teams.None? || e.teams.value == []
    else if department != "" then e.teams.Some? && exists t :: t in e.teams.value && t.name == department
    else true
  }

  /**
   * The `||` chain reads the email only when neither name matched, so a null email stops the
   * page only for such an employee.
   */
  predicate EmailReadable(cards: seq<EmployeeCard>, search: string) {
    forall e :: e in cards ==> e.email.Some? || NameHit(e, search)
  }

  /** filterEmployeee: the employees passing both tests, in list order. */
  function FilterEmployees(cards: seq<EmployeeCard>, q: SearchQuery): (r: seq<EmployeeCard>)
    requires EmailReadable(cards, q.search)
    ensures |r| <= |cards|
    ensures forall e :: e in r <==> e in cards && TextMatch(e, q.search) && TeamMatch(e, q.department)
  {
    Filter(cards, (e: EmployeeCard) => TextMatch(e, q.search) && TeamMatch(e, q.department))
  }

  /** The filter keeps list order: filtering a concatenation concatenates the filtered parts. */
  lemma FilterEmployeesKeepsOrder(a: seq<EmployeeCard>, b: seq<EmployeeCard>, q: SearchQuery)
    requires EmailReadable(a + b, q.search)
    ensures EmailReadable(a, q.search) && EmailReadable(b, q.search)
    ensures FilterEmployees(a + b, q) == FilterEmployees(a, q) + FilterEmployees(b, q)
  {
    FilterConcat(a, b, (e: EmployeeCard) => TextMatch(e, q.search) && TeamMatch(e, q.department));
  }

  /** An empty search text matches every employee, whatever its email. */
  lemma EmptySearchMatchesAll(e: EmployeeCard)
    ensures NameHit(e, "") && TextMatch(e, "")
  {
    assert Lower("") == "";
    assert "" <= Lower(e.firstName);
  }

  /** With both inputs empty the page shows the whole list. */
  lemma EmptyQueryKeepsEveryone(cards: seq<EmployeeCard>)
    ensures EmailReadable(cards, "")
    ensures FilterEmployees(cards, SearchQuery("", "")) == cards
  {
    forall e | e in cards ensures NameHit(e, "") && TextMatch(e, "") {
      EmptySearchMatchesAll(e);
    }
    FilterKeepsAll(cards, (e: EmployeeCard) => TextMatch(e, "") && TeamMatch(e, ""));
  }

  /** "No in a team now" with no search text keeps exactly the employees whose teams are missing or empty. */
  lemma NoTeamChoiceKeepsTeamless(cards: seq<EmployeeCard>, e: EmployeeCard)
    ensures EmailReadable(cards, "")
    ensures e in FilterEmployees(cards, SearchQuery("", NoTeam)) <==> e in cards && (e.teams.None? || e.teams.value == [])
  {
    EmptySearchMatchesAll(e);
    forall x | x in cards ensures NameHit(x, "") {
      EmptySearchMatchesAll(x);
    }
  }

  /** The add, edit and delete panels of the page. */
  class EmployeePanels {
    var addOpen: bool
    var editOpen: bool
    var delOpen: bool

    /**
     * No two panels are open together. `HandleToggle` always leaves the panels in this state;
     * the toolbar's "Add Employee" button (`OpenAdd`) does not close the others and can break it.
     */
    predicate AtMostOneOpen()
      reads this
    {
      !(addOpen && editOpen) && !(addOpen && delOpen) && !(editOpen && delOpen)
    }

    constructor ()
      ensures !addOpen && !editOpen && !delOpen
    {
      addOpen, editOpen, delOpen := false, false, false;
    }

    /** handleToggle: 'add' flips its panel and closes the others; 'edit' and 'del' open theirs alone. */
    method HandleToggle(value: string)
      modifies this
      ensures AtMostOneOpen() || (old(!AtMostOneOpen()) && value !in {"add", "edit", "del"})
      ensures value == "add" ==> addOpen == !old(addOpen) && !editOpen && !delOpen
      ensures value == "edit" ==> !addOpen && editOpen && !delOpen
      ensures value == "del" ==> !addOpen && !editOpen && delOpen
      ensures value !in {"add", "edit", "del"} ==> addOpen == old(addOpen) && editOpen == old(editOpen) && delOpen == old(delOpen)
    {
      if value == "add" {
        addOpen, editOpen, delOpen := !addOpen, false, false;
      } else if value == "edit" {
        addOpen, editOpen, delOpen := false, true, false;
      } else if value == "del" {
        addOpen, editOpen, delOpen := false, false, true;
      }
    }

    /**
     * The toolbar's "Add Employee" button: it opens the add panel and leaves the others as they
     * are, so after an edit or delete panel was opened two panels are open at once.
     */
    method OpenAdd()
      modifies this
      ensures addOpen && editOpen == old(editOpen) && delOpen == old(delOpen)
      ensures AtMostOneOpen() <==> !old(editOpen) && !old(delOpen)
    {
      addOpen := true;
    }
  }
}
