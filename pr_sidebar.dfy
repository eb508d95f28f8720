/**
 * The collapsible sections of src/components/PRSidebar.tsx and the label
 * list it renders.
 */
module PRSidebar {
  import opened Wrappers

  datatype Section = Reviewers | Labels | Assignees

  /** The `expandedSections` record. */
  datatype Expanded = Expanded(reviewers: bool, labels: bool, assignees: bool)

  /** `expandedSections[section]`. */
  function Get(e: Expanded, s: Section): bool
  {
    match s
    case Reviewers => e.reviewers
    case Labels => e.labels
    case Assignees => e.assignees
  }

  /** The state `useState` starts from. */
  function Initial(): (e: Expanded)
    ensures forall s: Section :: Get(e, s)
  {
    Expanded(true, true, true)
  }

  /** `toggleSection(section)`: `{...prev, [section]: !prev[section]}`. */
  function Toggle(e: Expanded, section: Section): (e': Expanded)
    ensures Get(e', section) == !Get(e, section)
    ensures forall s :: s != section ==> Get(e', s) == Get(e, s)
  {
    match section
    case Reviewers => e.(reviewers := !e.reviewers)
    case Labels => e.(labels := !e.labels)
    case Assignees => e.(assignees := !e.assignees)
  }

  /** A record is determined by its three entries. */
  lemma SameEntries(a: Expanded, b: Expanded)
    requires forall s: Section :: Get(a, s) == Get(b, s)
    ensures a == b
  {
    assert Get(a, Reviewers) == Get(b, Reviewers);
    assert Get(a, Labels) == Get(b, Labels);
    assert Get(a, Assignees) == Get(b, Assignees);
  }

  /** Toggling a section twice restores the record. */
  lemma ToggleTwice(e: Expanded, section: Section)
    ensures Toggle(Toggle(e, section), section) == e
  {
    SameEntries(Toggle(Toggle(e, section), section), e);
  }

  /** Toggles of different sections commute. */
  lemma TogglesCommute(e: Expanded, s: Section, t: Section)
    ensures Toggle(Toggle(e, s), t) == Toggle(Toggle(e, t), s)
  {
    SameEntries(Toggle(Toggle(e, s), t), Toggle(Toggle(e, t), s));
  }

  /** `{expandedSections[section] && <div>{children}</div>}`: the body, or nothing. */
  function Body<T>(e: Expanded, section: Section, children: T): (r: Option<T>)
    ensures r.Some? <==> Get(e, section)
    ensures r.Some? ==> r.value == children
  {
    if Get(e, section) then Some(children) else None
  }

  /** The chevron's extra class: turned aside while the section is collapsed. */
  function ChevronClass(e: Expanded, section: Section): (c: string)
    ensures c == "" <==> Get(e, section)
  {
    if Get(e, section) then "" else "-rotate-90"
  }

  /** A label as GitHub sends it: a bare name, or an object with a colour. */
  datatype Label = Label(name: string, color: string)
  datatype LabelInput = Named(name: string) | Full(obj: Label)

  /** `typeof label === "string" ? { name: label, color: "999999" } : label`. */
  function Normalize(l: LabelInput): (r: Label)
    ensures l.Named? ==> r == Label(l.name, "999999")
    ensures l.Full? ==> r == l.obj
  {
    match l
    case Named(n) => Label(n, "999999")
    case Full(obj) => obj
  }

  /** The labels the section shows, in order. */
  function Badges(labels: seq<LabelInput>): (r: seq<Label>)
    ensures |r| == |labels|
    ensures forall i :: 0 <= i < |labels| ==> r[i] == Normalize(labels[i])
  {
    seq(|labels|, i requires 0 <= i < |labels| => Normalize(labels[i]))
  }

  /** Normalising is idempotent: a normalised label passes through unchanged. */
  lemma NormalizeIdempotent(l: LabelInput)
    ensures Normalize(Full(Normalize(l))) == Normalize(l)
  {
  }
}
