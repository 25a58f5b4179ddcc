/** The project list screen's view logic: the progress colour, the icon of
    a project type, which of the four states the screen shows, and what
    tapping a project does in selection and in browse mode. */
module ProjectListView {
  import opened Wrappers
  import opened JsValue
  import Text

  // ---- getProgressColor ----

  const Grey: string := "#9E9E9E"
  const Green: string := "#4CAF50"
  const LightGreen: string := "#8BC34A"
  const Amber: string := "#FFC107"
  const Orange: string := "#FF9800"
  const Red: string := "#F44336"

  /** `getProgressColor(percent)`; `percent` None is `undefined`. */
  function ProgressColor(percent: Option<int>): string {
    if percent.None? || percent.value == 0 then Grey
    else if percent.value >= 100 then Green
    else if percent.value >= 75 then LightGreen
    else if percent.value >= 50 then Amber
    else if percent.value >= 25 then Orange
    else Red
  }

  /** The bands from the top: the first threshold the value reaches. */
  const Bands: seq<(int, string)> := [(100, Green), (75, LightGreen), (50, Amber), (25, Orange)]

  function FirstBand(p: int, bands: seq<(int, string)>): string
    decreases |bands|
  {
    if |bands| == 0 then Red
    else if p >= bands[0].0 then bands[0].1
    else FirstBand(p, bands[1..])
  }

  /** The colour of a set, non-zero percentage is that of the highest band
      it reaches, red below every band (negatives included); 0 and unset
      are grey. */
  lemma ProgressColorByBands(percent: Option<int>)
    ensures percent.None? || percent.value == 0 ==> ProgressColor(percent) == Grey
    ensures percent.Some? && percent.value != 0 ==> ProgressColor(percent) == FirstBand(percent.value, Bands)
  {
    if percent.Some? && percent.value != 0 {
      var p := percent.value;
      var b1 := Bands[1..];
      var b2 := b1[1..];
      var b3 := b2[1..];
      assert |Bands| == 4 && Bands[0] == (100, Green);
      assert b1[0] == (75, LightGreen) && b2[0] == (50, Amber) && b3[0] == (25, Orange);
      assert b3[1..] == [];
      assert FirstBand(p, b3) == if p >= 25 then Orange else Red;
      assert FirstBand(p, b2) == if p >= 50 then Amber else FirstBand(p, b3);
      assert FirstBand(p, b1) == if p >= 75 then LightGreen else FirstBand(p, b2);
      assert FirstBand(p, Bands) == if p >= 100 then Green else FirstBand(p, b1);
    }
  }

  /** Ranks the colours from red (0) to green (4). */
  function Rank(c: string): int {
    if c == Green then 4 else if c == LightGreen then 3 else if c == Amber then 2
    else if c == Orange then 1 else 0
  }

  /** More progress never shows a lower band. */
  lemma ProgressColorMonotone(a: int, b: int)
    requires 0 < a <= b
    ensures Rank(ProgressColor(Some(a))) <= Rank(ProgressColor(Some(b)))
  {
  }

  // ---- getProjectIcon ----

  const Globe: string := "\U{1F310}"
  const OfficeBuilding: string := "\U{1F3E2}"
  const People: string := "\U{1F465}"
  const Microscope: string := "\U{1F52C}"
  const Laptop: string := "\U{1F4BB}"
  const Folder: string := "\U{1F4C1}"

  /** `getProjectIcon(projectType)`: matched on the lower-cased type; None
      is an absent type. */
  function ProjectIcon(projectType: Option<string>): (icon: string)
    ensures icon in {Globe, OfficeBuilding, People, Microscope, Laptop, Folder}
    ensures projectType.None? ==> icon == Folder
  {
    if projectType.None? then Folder
    else
      var t := Text.ToLower(projectType.value);
      if t == "external" then Globe
      else if t == "internal" then OfficeBuilding
      else if t == "client" then People
      else if t == "research" then Microscope
      else if t == "development" then Laptop
      else Folder
  }

  /** The icon ignores letter case. */
  lemma ProjectIconIgnoresCase(t: string)
    ensures ProjectIcon(Some(Text.ToLower(t))) == ProjectIcon(Some(t))
  {
    Text.ToLowerIdempotent(t);
  }

  /** "External" in any capitalisation gets the globe. */
  lemma ExternalAnyCase(t: string)
    requires Text.ToLower(t) == "external"
    ensures ProjectIcon(Some(t)) == Globe
  {
  }

  // ---- renderContent ----

  datatype Content = Spinner | ErrorView | EmptyState | List

  /** `renderContent()`: the first case that applies. `error` is the
      store's error value. */
  function RenderContent(loading: bool, count: nat, error: Value, refreshing: bool): (c: Content)
    ensures c == Spinner <==> loading && count == 0 && !refreshing
    ensures c == ErrorView <==> !loading && Truthy(error) && count == 0 && !refreshing
    ensures c == EmptyState <==> !loading && !Truthy(error) && count == 0 && !refreshing
    ensures c == List <==> count > 0 || refreshing
  {
    if loading && count == 0 && !refreshing then Spinner
    else if Truthy(error) && count == 0 && !refreshing then ErrorView
    else if count == 0 && !loading && !refreshing then EmptyState
    else List
  }

  // ---- handleProjectSelect ----

  /** The callbacks and navigation the screen was given. */
  datatype Props = Props(selectionMode: bool, hasOnSelect: bool, hasOnClose: bool, hasNavigation: bool)

  datatype UiEffect = OnSelect(projectName: string) | OnClose | GoBack | NavigateToDetail(projectId: string)

  /** `handleProjectSelect(projectName)`: the effects, in order. */
  function HandleProjectSelect(props: Props, projectName: string): (effects: seq<UiEffect>)
    ensures |effects| <= 2
    ensures !props.selectionMode ==>
      effects == (if props.hasNavigation then [NavigateToDetail(projectName)] else [])
    ensures props.selectionMode ==>
      forall i :: 0 <= i < |effects| ==> !effects[i].NavigateToDetail?
  {
    if props.selectionMode then
      (if props.hasOnSelect then [OnSelect(projectName)] else [])
      + (if props.hasOnClose then [OnClose] else if props.hasNavigation then [GoBack] else [])
    else if props.hasNavigation then [NavigateToDetail(projectName)]
    else []
  }

  /** In selection mode the choice is reported before the sheet closes, and
      `onClose` takes precedence over going back. */
  lemma SelectThenClose(props: Props, projectName: string)
    requires props.selectionMode && props.hasOnSelect && props.hasOnClose
    ensures HandleProjectSelect(props, projectName) == [OnSelect(projectName), OnClose]
  {
  }

  /** Browse mode never reports a selection or closes anything. */
  lemma BrowseNeverSelects(props: Props, projectName: string)
    requires !props.selectionMode
    ensures forall i :: 0 <= i < |HandleProjectSelect(props, projectName)| ==>
      HandleProjectSelect(props, projectName)[i] == NavigateToDetail(projectName)
  {
  }
}
