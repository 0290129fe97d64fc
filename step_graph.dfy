/**
 * The eGAR wizard's steps: for each page, the behaviours run on it (guards first, the page's
 * controller last), the page it goes to next, its back link, its fields, and the forks that
 * override the next page.
 */
module StepGraph {
  import opened Common
  import People

  /** The wizard's pages, in declaration order. */
  datatype Page =
    | EgarPage | Home | ManageGarsPage | Aircraft | Departure | Arrival | Goods | PeoplePage | PersonExisting
    | PersonType | CaptainGeneral | CaptainBirth | CaptainTravel | CaptainResponsible | CrewGeneral | CrewBirth
    | CrewTravel | PassengerGeneral | PassengerBirth | PassengerTravel | SupportingFiles | UploadFiles | Summary
    | Submit | Complete

  function PathOf(p: Page): string
  {
    match p
    case EgarPage => "/egar"
    case Home => "/home"
    case ManageGarsPage => "/manage-gars"
    case Aircraft => "/aircraft"
    case Departure => "/departure"
    case Arrival => "/arrival"
    case Goods => "/goods"
    case PeoplePage => "/people"
    case PersonExisting => "/person-existing"
    case PersonType => "/person-type"
    case CaptainGeneral => "/captain-general"
    case CaptainBirth => "/captain-birth"
    case CaptainTravel => "/captain-travel"
    case CaptainResponsible => "/captain-responsible"
    case CrewGeneral => "/crew-general"
    case CrewBirth => "/crew-birth"
    case CrewTravel => "/crew-travel"
    case PassengerGeneral => "/passenger-general"
    case PassengerBirth => "/passenger-birth"
    case PassengerTravel => "/passenger-travel"
    case SupportingFiles => "/supporting-files"
    case UploadFiles => "/upload-files"
    case Summary => "/summary"
    case Submit => "/submit"
    case Complete => "/complete"
  }

  /** The page a path names, nil for a path that names none. */
  function PageOf(path: string): Option<Page>
  {
    match path
    case "/egar" => Some(EgarPage)
    case "/home" => Some(Home)
    case "/manage-gars" => Some(ManageGarsPage)
    case "/aircraft" => Some(Aircraft)
    case "/departure" => Some(Departure)
    case "/arrival" => Some(Arrival)
    case "/goods" => Some(Goods)
    case "/people" => Some(PeoplePage)
    case "/person-existing" => Some(PersonExisting)
    case "/person-type" => Some(PersonType)
    case "/captain-general" => Some(CaptainGeneral)
    case "/captain-birth" => Some(CaptainBirth)
    case "/captain-travel" => Some(CaptainTravel)
    case "/captain-responsible" => Some(CaptainResponsible)
    case "/crew-general" => Some(CrewGeneral)
    case "/crew-birth" => Some(CrewBirth)
    case "/crew-travel" => Some(CrewTravel)
    case "/passenger-general" => Some(PassengerGeneral)
    case "/passenger-birth" => Some(PassengerBirth)
    case "/passenger-travel" => Some(PassengerTravel)
    case "/supporting-files" => Some(SupportingFiles)
    case "/upload-files" => Some(UploadFiles)
    case "/summary" => Some(Summary)
    case "/submit" => Some(Submit)
    case "/complete" => Some(Complete)
    case _ => None
  }

  /** The behaviours a step can be built from. */
  datatype Behaviour =
    | GarGuard | PersonGuard | UnsetPersonGuard | CompleteGuard | UnsetErrorsGuard | UnsetFilesGuard
    | AircraftController | HomeController | LocationController | AttributesController | PersonController
    | PeopleController | SummaryController | GarController | EgarController | SubmitController
    | CompleteController | FileUploadController | SupportingFilesController

  predicate IsGuard(b: Behaviour)
  {
    b in {GarGuard, PersonGuard, UnsetPersonGuard, CompleteGuard, UnsetErrorsGuard, UnsetFilesGuard}
  }

  /** Where a step leads: one of the wizard's pages, or a path that is none of them. */
  datatype Dest = To(page: Page) | Elsewhere(path: string)

  /** A fork's condition: the summary flag set, unset, or a form field holding a value. */
  datatype Condition = SummarySet | SummaryUnset | FieldIs(field: string, value: string)

  datatype Fork = Fork(target: Dest, condition: Condition)

  /**
   * A step: whether it runs through the behaviour aggregator, its behaviours (the aggregator's
   * sub-behaviours, or the single behaviour of a plain step), its next page, back link(s), fields
   * and forks.
   */
  datatype Step = Step(
    aggregated: bool,
    behaviours: seq<Behaviour>,
    next: Option<Dest>,
    backLinks: seq<string>,
    fields: seq<string>,
    forks: seq<Fork>)

  /** The pair of forks that goes to the summary when the summary flag is set, and to target otherwise. */
  function SummaryOr(target: Page): seq<Fork>
  {
    [Fork(To(Summary), SummarySet), Fork(To(target), SummaryUnset)]
  }

  const GeneralFields: seq<string> := ["egar-person-given-name", "egar-person-family-name", "egar-person-gender", "egar-person-uk-address"]
  const BirthFields: seq<string> := ["egar-person-dob", "egar-person-birth-place", "egar-person-nationality-country"]
  const TravelFields: seq<string> := [
    "egar-person-travel-document-type", "egar-person-travel-document-number",
    "egar-person-travel-document-expiry", "egar-person-travel-document-country"]
  const PersonPage: seq<Behaviour> := [GarGuard, UnsetErrorsGuard, PersonGuard, PersonController]

  function LocationFields(leg: string): seq<string>
  {
    ["egar-" + leg + "-date", "egar-" + leg + "-time", "egar-" + leg + "-icao", "egar-" + leg + "-no-icao",
     "egar-" + leg + "-location", "egar-" + leg + "-latitude", "egar-" + leg + "-longitude", "egar-" + leg + "-iata"]
  }

  /** Whether the page runs through the behaviour aggregator: all but /egar and /person-existing. */
  predicate Aggregated(p: Page)
  {
    p != EgarPage && p != PersonExisting
  }

  /** The behaviours each page runs: the aggregator's sub-behaviours, or a plain step's single one. */
  function BehavioursOf(p: Page): seq<Behaviour>
  {
    match p
    case EgarPage => [EgarController]
    case Home => [UnsetErrorsGuard, UnsetPersonGuard, UnsetFilesGuard, HomeController]
    case ManageGarsPage => [UnsetErrorsGuard, UnsetPersonGuard, UnsetFilesGuard, GarController]
    case Aircraft => [GarGuard, UnsetErrorsGuard, UnsetPersonGuard, AircraftController]
    case Departure => [GarGuard, UnsetErrorsGuard, UnsetPersonGuard, LocationController]
    case Arrival => [GarGuard, UnsetErrorsGuard, UnsetPersonGuard, LocationController]
    case Goods => [GarGuard, UnsetErrorsGuard, UnsetPersonGuard, AttributesController]
    case PeoplePage => [GarGuard, UnsetErrorsGuard, UnsetPersonGuard, PeopleController]
    case PersonExisting => []
    case PersonType => [GarGuard, UnsetErrorsGuard, PersonController]
    case CaptainGeneral => PersonPage
    case CaptainBirth => PersonPage
    case CaptainTravel => PersonPage
    case CaptainResponsible => [GarGuard, UnsetErrorsGuard, PersonGuard, AttributesController]
    case CrewGeneral => PersonPage
    case CrewBirth => PersonPage
    case CrewTravel => PersonPage
    case PassengerGeneral => PersonPage
    case PassengerBirth => PersonPage
    case PassengerTravel => PersonPage
    case SupportingFiles => [GarGuard, UnsetErrorsGuard, UnsetPersonGuard, SupportingFilesController]
    case UploadFiles => [GarGuard, UnsetErrorsGuard, UnsetPersonGuard, FileUploadController]
    case Summary => [GarGuard, UnsetPersonGuard, SummaryController]
    case Submit => [GarGuard, UnsetErrorsGuard, UnsetPersonGuard, SubmitController]
    case Complete => [GarGuard, UnsetErrorsGuard, UnsetPersonGuard, UnsetFilesGuard, CompleteGuard, CompleteController]
  }

  /** The next page each step declares, before its forks. */
  function NextOf(p: Page): Option<Dest>
  {
    match p
    case Home => Some(To(Aircraft))
    case ManageGarsPage => Some(To(Home))
    case PeoplePage => Some(To(SupportingFiles))
    case PersonExisting => Some(To(PeoplePage))
    case PersonType => Some(Elsewhere("/person-general"))
    case CaptainGeneral => Some(To(CaptainBirth))
    case CaptainBirth => Some(To(CaptainTravel))
    case CaptainTravel => Some(To(CaptainResponsible))
    case CrewGeneral => Some(To(CrewBirth))
    case CrewBirth => Some(To(CrewTravel))
    case PassengerGeneral => Some(To(PassengerBirth))
    case PassengerBirth => Some(To(PassengerTravel))
    case SupportingFiles => Some(To(Summary))
    case UploadFiles => Some(To(Summary))
    case Summary => Some(To(Submit))
    case Submit => Some(To(Complete))
    case _ => None
  }

  /** The back link(s) each step declares. */
  function BackLinksOf(p: Page): seq<string>
  {
    match p
    case Home => ["../welcome"]
    case ManageGarsPage => ["home"]
    case Aircraft => ["home"]
    case Departure => ["aircraft"]
    case Arrival => ["departure"]
    case Goods => ["arrival"]
    case PeoplePage => ["goods"]
    case PersonType => ["people"]
    case CaptainGeneral => ["person-type"]
    case CaptainBirth => ["captain-general"]
    case CaptainTravel => ["captain-birth"]
    case CaptainResponsible => ["captain-travel"]
    case CrewGeneral => ["person-type"]
    case CrewBirth => ["crew-general"]
    case CrewTravel => ["crew-birth"]
    case PassengerGeneral => ["person-type"]
    case PassengerBirth => ["passenger-general"]
    case PassengerTravel => ["passenger-birth"]
    case SupportingFiles => ["people"]
    case UploadFiles => ["supporting-files"]
    case Summary => ["manage-gars"]
    case Submit => ["summary"]
    case _ => []
  }

  /** The form fields each step declares. */
  function FieldsOf(p: Page): seq<string>
  {
    match p
    case ManageGarsPage => ["egar-manage-gars-date-from", "egar-manage-gars-date-to"]
    case Aircraft => ["egar-aircraft-registration", "egar-aircraft-type", "egar-aircraft-base", "egar-aircraft-taxes-paid"]
    case Departure => LocationFields("departure")
    case Arrival => LocationFields("arrival")
    case Goods => ["egar-goods-declaration", "egar-goods-expander"]
    case PersonType => ["egar-person-type"]
    case CaptainGeneral => GeneralFields
    case CaptainBirth => BirthFields
    case CaptainTravel => TravelFields
    case CaptainResponsible => ["egar-person-responsible", "egar-person-responsible-name", "egar-person-responsible-number"]
    case CrewGeneral => GeneralFields
    case CrewBirth => BirthFields
    case CrewTravel => TravelFields
    case PassengerGeneral => GeneralFields
    case PassengerBirth => BirthFields
    case PassengerTravel => TravelFields
    case SupportingFiles => ["egar-supporting-files-expander", "egar-supporting-files"]
    case UploadFiles => ["egar-supporting-files-upload"]
    case _ => []
  }

  /** The forks each step declares, in order. */
  function ForksOf(p: Page): seq<Fork>
  {
    match p
    case Aircraft => SummaryOr(Departure)
    case Departure => SummaryOr(Arrival)
    case Arrival => SummaryOr(Goods)
    case Goods => SummaryOr(PeoplePage)
    case PersonType =>
      [Fork(To(CaptainGeneral), FieldIs("egar-person-type", "captain")),
       Fork(To(CrewGeneral), FieldIs("egar-person-type", "crew")),
       Fork(To(PassengerGeneral), FieldIs("egar-person-type", "passenger"))]
    case CaptainResponsible => SummaryOr(PeoplePage)
    case CrewTravel => SummaryOr(PeoplePage)
    case PassengerTravel => SummaryOr(PeoplePage)
    case SupportingFiles => [Fork(To(UploadFiles), FieldIs("egar-supporting-files", "true"))]
    case _ => []
  }

  /** The step declared for each page. */
  function StepOf(p: Page): Step
  {
    Step(Aggregated(p), BehavioursOf(p), NextOf(p), BackLinksOf(p), FieldsOf(p), ForksOf(p))
  }

  /** Whether a fork's condition holds for the summary flag and the submitted form values. */
  predicate Holds(c: Condition, summary: bool, values: map<string, string>)
  {
    match c
    case SummarySet => summary
    case SummaryUnset => !summary
    case FieldIs(field, value) => field in values && values[field] == value
  }

  /**
   * The page a step goes to: its forks are tried in order, each one that holds overriding the
   * result so far, starting from the step's next page.
   */
  function Target(forks: seq<Fork>, fallback: Option<Dest>, summary: bool, values: map<string, string>): (r: Option<Dest>)
    ensures (forall k :: 0 <= k < |forks| ==> !Holds(forks[k].condition, summary, values)) ==> r == fallback
    ensures |forks| > 0 && Holds(forks[|forks| - 1].condition, summary, values) ==> r == Some(forks[|forks| - 1].target)
    ensures r == fallback || exists k :: 0 <= k < |forks| && Holds(forks[k].condition, summary, values) && r == Some(forks[k].target)
  {
    if |forks| == 0 then fallback
    else
      var before := Target(forks[..|forks| - 1], fallback, summary, values);
      var last := forks[|forks| - 1];
      assert forall k :: 0 <= k < |forks| - 1 ==> forks[..|forks| - 1][k] == forks[k];
      if Holds(last.condition, summary, values) then Some(last.target) else before
  }

  function NextPage(p: Page, summary: bool, values: map<string, string>): Option<Dest>
  {
    Target(ForksOf(p), NextOf(p), summary, values)
  }

  /** Each page's path names it, and no other. */
  lemma PathRoundTrip(p: Page)
    ensures PageOf(PathOf(p)) == Some(p)
  {
    match p
    case EgarPage =>
    case Home =>
    case ManageGarsPage =>
    case Aircraft =>
    case Departure =>
    case Arrival =>
    case Goods =>
    case PeoplePage =>
    case PersonExisting =>
    case PersonType =>
    case CaptainGeneral =>
    case CaptainBirth =>
    case CaptainTravel =>
    case CaptainResponsible =>
    case CrewGeneral =>
    case CrewBirth =>
    case CrewTravel =>
    case PassengerGeneral =>
    case PassengerBirth =>
    case PassengerTravel =>
    case SupportingFiles =>
    case UploadFiles =>
    case Summary =>
    case Submit =>
    case Complete =>
  }

  /** Exactly one of a summary fork pair holds, so such a step goes to the summary exactly when the flag is set. */
  lemma SummaryPairDecides(target: Page, next: Option<Dest>, summary: bool, values: map<string, string>)
    ensures Target(SummaryOr(target), next, summary, values) == Some(To(if summary then Summary else target))
  {
    var forks := SummaryOr(target);
    assert forks[..1] == [Fork(To(Summary), SummarySet)];
    assert forks[..1][..0] == [];
  }

  /**
   * The pages whose forks are a summary pair: aircraft, departure, arrival, goods and the last
   * page of each person; the summary flag decides between the summary and the usual next page.
   */
  lemma SummaryForkSteps(p: Page, summary: bool, values: map<string, string>)
    requires p in {Aircraft, Departure, Arrival, Goods, CaptainResponsible, CrewTravel, PassengerTravel}
    ensures ForksOf(p) == SummaryOr(ForksOf(p)[1].target.page)
    ensures NextPage(p, summary, values) == Some(To(if summary then Summary else ForksOf(p)[1].target.page))
  {
    SummaryPairDecides(ForksOf(p)[1].target.page, NextOf(p), summary, values);
  }

  /** person-type forks on the person's type; any other value falls back to '/person-general'. */
  lemma PersonTypeForks(summary: bool, values: map<string, string>)
    ensures var t := Lookup(values, "egar-person-type");
      NextPage(PersonType, summary, values) ==
        if t == Some("passenger") then Some(To(PassengerGeneral))
        else if t == Some("crew") then Some(To(CrewGeneral))
        else if t == Some("captain") then Some(To(CaptainGeneral))
        else Some(Elsewhere("/person-general"))
  {
    var forks := ForksOf(PersonType);
    var fallback := NextOf(PersonType);
    var t := Lookup(values, "egar-person-type");
    assert forks[..1][..0] == [];
    assert Target(forks[..1], fallback, summary, values) == if t == Some("captain") then Some(To(CaptainGeneral)) else fallback;
    assert forks[..2][..1] == forks[..1];
    assert Target(forks[..2], fallback, summary, values) ==
      if t == Some("crew") then Some(To(CrewGeneral)) else Target(forks[..1], fallback, summary, values);
    assert forks[..3][..2] == forks[..2];
    assert forks[..3] == forks;
  }

  /** supporting-files goes to the upload page when the answer is 'true', to the summary otherwise. */
  lemma SupportingFilesForks(summary: bool, values: map<string, string>)
    ensures NextPage(SupportingFiles, summary, values) ==
      if Lookup(values, "egar-supporting-files") == Some("true") then Some(To(UploadFiles)) else Some(To(Summary))
  {
    assert ForksOf(SupportingFiles)[..0] == [];
  }

  /** Every step runs GarGuard first, except /egar, /home, /manage-gars and /person-existing, which do not run it at all. */
  lemma GarGuardEverywhereElse(p: Page)
    ensures p in {EgarPage, Home, ManageGarsPage, PersonExisting} ==> GarGuard !in BehavioursOf(p)
    ensures p !in {EgarPage, Home, ManageGarsPage, PersonExisting} ==>
      |BehavioursOf(p)| > 0 && BehavioursOf(p)[0] == GarGuard
  {
    match p
    case EgarPage =>
    case Home =>
    case ManageGarsPage =>
    case Aircraft =>
    case Departure =>
    case Arrival =>
    case Goods =>
    case PeoplePage =>
    case PersonExisting =>
    case PersonType =>
    case CaptainGeneral =>
    case CaptainBirth =>
    case CaptainTravel =>
    case CaptainResponsible =>
    case CrewGeneral =>
    case CrewBirth =>
    case CrewTravel =>
    case PassengerGeneral =>
    case PassengerBirth =>
    case PassengerTravel =>
    case SupportingFiles =>
    case UploadFiles =>
    case Summary =>
    case Submit =>
    case Complete =>
  }

  /** Every aggregated step ends its behaviours with the page's controller, and runs guards only before it. */
  lemma ControllerLast(p: Page)
    requires Aggregated(p)
    ensures |BehavioursOf(p)| > 0 && !IsGuard(BehavioursOf(p)[|BehavioursOf(p)| - 1])
    ensures forall j :: 0 <= j < |BehavioursOf(p)| - 1 ==> IsGuard(BehavioursOf(p)[j])
  {
    match p
    case EgarPage =>
    case Home =>
    case ManageGarsPage =>
    case Aircraft =>
    case Departure =>
    case Arrival =>
    case Goods =>
    case PeoplePage =>
    case PersonExisting =>
    case PersonType =>
    case CaptainGeneral =>
    case CaptainBirth =>
    case CaptainTravel =>
    case CaptainResponsible =>
    case CrewGeneral =>
    case CrewBirth =>
    case CrewTravel =>
    case PassengerGeneral =>
    case PassengerBirth =>
    case PassengerTravel =>
    case SupportingFiles =>
    case UploadFiles =>
    case Summary =>
    case Submit =>
    case Complete =>
  }

  /**
   * Every next page and fork target is one of the wizard's pages, except person-type's fallback
   * '/person-general', which names none.
   */
  lemma TargetsAreSteps(p: Page)
    ensures p != PersonType && NextOf(p).Some? ==> NextOf(p).value.To?
    ensures forall j :: 0 <= j < |ForksOf(p)| ==> ForksOf(p)[j].target.To?
    ensures NextOf(PersonType) == Some(Elsewhere("/person-general")) && PageOf("/person-general").None?
  {
    match p
    case EgarPage =>
    case Home =>
    case ManageGarsPage =>
    case Aircraft =>
    case Departure =>
    case Arrival =>
    case Goods =>
    case PeoplePage =>
    case PersonExisting =>
    case PersonType =>
    case CaptainGeneral =>
    case CaptainBirth =>
    case CaptainTravel =>
    case CaptainResponsible =>
    case CrewGeneral =>
    case CrewBirth =>
    case CrewTravel =>
    case PassengerGeneral =>
    case PassengerBirth =>
    case PassengerTravel =>
    case SupportingFiles =>
    case UploadFiles =>
    case Summary =>
    case Submit =>
    case Complete =>
  }

  /** The pages the people page sends an edit to are the person-guarded general steps, or the people page itself. */
  lemma EditTargetsAreGuarded(personType: string)
    ensures var path := People.NextPath(personType, "/people");
      && PageOf(path).Some?
      && (path != "/people" ==> PersonGuard in BehavioursOf(PageOf(path).value))
  {
  }
}
