/** The exam list page: the search and status filter over the loaded exams,
    and the removal of a deleted exam from the list. */
module ExamList {
  import opened Base

  /** An exam as the list receives it; `description` may be `null`. */
  datatype ExamItem = ExamItem(id: nat, titre: string, description: Option<string>, statut: string)

  /** The status filter value that keeps every exam. */
  const AllStatuses: string := "all"

  /** A JavaScript string value that is truthy: present and non-empty. */
  predicate HasText(s: Option<string>)
  {
    s.Some? && s.value != ""
  }

  /** Case-insensitive substring search on the title, or on the description
      when it is non-empty. */
  predicate MatchesSearch(e: ExamItem, term: string)
  {
    Includes(Lower(e.titre), Lower(term)) ||
    (HasText(e.description) && Includes(Lower(e.description.value), Lower(term)))
  }

  /** `'all'` keeps every status; any other value is compared exactly. */
  predicate MatchesStatus(e: ExamItem, status: string)
  {
    status == AllStatuses || e.statut == status
  }

  predicate Shown(e: ExamItem, term: string, status: string)
  {
    MatchesSearch(e, term) && MatchesStatus(e, status)
  }

  /** `filteredExams`: the exams passing both the search and the status
      filter, in the order they were loaded. */
  function FilteredExams(exams: seq<ExamItem>, term: string, status: string): (r: seq<ExamItem>)
    ensures IsSubsequence(r, exams)
    ensures forall e :: e in r <==> e in exams && MatchesSearch(e, term) && MatchesStatus(e, status)
    ensures status != AllStatuses ==> forall e :: e in r ==> e.statut == status
  {
    Where(exams, (e: ExamItem) => Shown(e, term, status))
  }

  /** With an empty search and the `'all'` status nothing is filtered out. */
  lemma {:induction false} NoFilterKeepsAll(exams: seq<ExamItem>)
    ensures FilteredExams(exams, "", AllStatuses) == exams
  {
    forall e | e in exams ensures Shown(e, "", AllStatuses) {
      IncludesEmpty(Lower(e.titre));
    }
    WhereAll(exams, (e: ExamItem) => Shown(e, "", AllStatuses));
  }

  /** The search ignores the case of the search term. */
  lemma {:induction false} SearchIgnoresTermCase(exams: seq<ExamItem>, term: string, status: string)
    ensures FilteredExams(exams, Lower(term), status) == FilteredExams(exams, term, status)
  {
    LowerIdempotent(term);
    WhereSameTest(exams, (e: ExamItem) => Shown(e, Lower(term), status), (e: ExamItem) => Shown(e, term, status));
  }

  /** `exams.filter(exam => exam.id !== id)`. */
  function Without(exams: seq<ExamItem>, id: nat): (r: seq<ExamItem>)
    ensures IsSubsequence(r, exams)
    ensures forall e :: e in r <==> e in exams && e.id != id
  {
    Where(exams, (e: ExamItem) => e.id != id)
  }

  /** Removing an id a second time changes nothing. */
  lemma {:induction false} WithoutIdempotent(exams: seq<ExamItem>, id: nat)
    ensures Without(Without(exams, id), id) == Without(exams, id)
  {
    WhereAll(Without(exams, id), (e: ExamItem) => e.id != id);
  }

  /** The list component's state. */
  class ExamListView {
    var exams: seq<ExamItem>
    var searchTerm: string
    var statusFilter: string
    var alerts: nat

    constructor()
      ensures exams == [] && searchTerm == "" && statusFilter == AllStatuses && alerts == 0
    {
      exams := [];
      searchTerm := "";
      statusFilter := AllStatuses;
      alerts := 0;
    }

    /** `handleDelete`: after confirmation and a successful server call the
        exam leaves the list; a failed call shows an alert and keeps it. */
    method HandleDelete(id: nat, confirmed: bool, deleted: bool)
      modifies this
      ensures confirmed && deleted ==> exams == Without(old(exams), id)
      ensures !(confirmed && deleted) ==> exams == old(exams)
      ensures alerts == old(alerts) + (if confirmed && !deleted then 1 else 0)
      ensures searchTerm == old(searchTerm) && statusFilter == old(statusFilter)
    {
      if confirmed {
        if deleted {
          exams := Without(exams, id);
        } else {
          alerts := alerts + 1;
        }
      }
    }
  }
}
