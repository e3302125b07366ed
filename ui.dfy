/** Values that the matrix viewer's Dash callbacks exchange with the page:
    component styles, checklist/dropdown option entries, click counters and
    the three ways a callback can end. */
module Ui {

  datatype Option<T> = None | Some(value: T)

  /** Why a callback raised instead of returning its outputs. */
  datatype Failure =
    | DecodeError              // the upload could not be decoded or read as a two-row-header table
    | MissingTier(tier: string) // no column carries this level-0 header value (pandas KeyError)
    | NonUniqueAxis            // `to_json` on a table whose row or column labels repeat (pandas ValueError)
    | EmptyMatrix              // min/max over a matrix with no cells (numpy ValueError)
    | NonNumericCell           // min/max over a matrix holding a text cell
    | NoneStyle                // a style that is None was indexed (Python TypeError)
    | NoneChecklist            // membership test on a checklist value that is None (Python TypeError)

  datatype Result<T> = Ok(value: T) | Err(failure: Failure)

  /** How one callback invocation ends, as the Dash renderer sees it:
      every output is published together, none is (PreventUpdate),
      or the callback raised and none is. */
  datatype Outcome = Published | NoUpdate | Raised(failure: Failure)

  /** A component's `style` property: CSS property name to value. */
  type Style = map<string, string>

  const BackgroundColor: string := "background-color"

  /** The colour a control is painted once the output it triggers is ready. */
  const ReadyColor: string := "#B6E880"

  /** The style after `style['background-color'] = '#B6E880'`. */
  function MarkReady(style: Style): (r: Style)
    ensures BackgroundColor in r && r[BackgroundColor] == ReadyColor
    ensures r.Keys == style.Keys + {BackgroundColor}
    ensures forall k :: k in style && k != BackgroundColor ==> r[k] == style[k]
  {
    style[BackgroundColor := ReadyColor]
  }

  /** Marking a control ready a second time changes nothing. */
  lemma MarkReadyIdempotent(style: Style)
    ensures MarkReady(MarkReady(style)) == MarkReady(style)
  {
  }

  /** One entry of a checklist's or dropdown's `options`, `{'label': .., 'value': ..}`;
      `caption` holds the `label` key. */
  datatype Entry = Entry(caption: string, value: string)

  /** The synthetic first entry of the label dropdown. */
  const NoneEntry: Entry := Entry("None", "None")

  /** The values a user can pick from a list of option entries. */
  function Values(opts: seq<Entry>): seq<string>
  {
    seq(|opts|, i requires 0 <= i < |opts| => opts[i].value)
  }

  /** `[{'label': f, 'value': f} for f in features]`: one entry per name,
      in order, showing the name it selects. */
  function NamedOptions(names: seq<string>): (r: seq<Entry>)
    ensures Values(r) == names
    ensures forall e :: e in r ==> e.caption == e.value
  {
    seq(|names|, i requires 0 <= i < |names| => Entry(names[i], names[i]))
  }

  /** The label dropdown's options: the synthetic `None` entry, then one entry per label. */
  function LabelOptions(labels: seq<string>): (r: seq<Entry>)
    ensures |r| == |labels| + 1 && r[0] == NoneEntry
    ensures Values(r) == [NoneEntry.value] + labels
    ensures forall e :: e in r ==> e.caption == e.value
  {
    [NoneEntry] + NamedOptions(labels)
  }

  /** A list of entries is the label dropdown's options exactly when it starts
      with the `None` entry and then mirrors the labels one by one. */
  lemma LabelOptionsCharacterised(labels: seq<string>, opts: seq<Entry>)
    ensures opts == LabelOptions(labels) <==>
      && |opts| == |labels| + 1 && opts[0] == NoneEntry
      && forall k :: 0 <= k < |labels| ==> opts[k + 1] == Entry(labels[k], labels[k])
  {
    var spec := [NoneEntry] + NamedOptions(labels);
    assert forall k :: 0 <= k < |labels| ==> spec[k + 1] == Entry(labels[k], labels[k]);
    if |opts| == |labels| + 1 && opts[0] == NoneEntry
       && forall k :: 0 <= k < |labels| ==> opts[k + 1] == Entry(labels[k], labels[k])
    {
      assert forall k :: 0 <= k < |spec| ==> opts[k] == spec[k] by {
        forall k | 0 <= k < |spec| ensures opts[k] == spec[k] {
          if k > 0 {
            assert opts[(k - 1) + 1] == spec[(k - 1) + 1];
          }
        }
      }
      assert opts == spec;
    }
  }

  /** A button's `n_clicks` after the parse callback bumps it: 1 from None, else one more. */
  function NextClicks(clicks: Option<int>): (r: int)
    ensures Some(r) != clicks
    ensures clicks.None? ==> r == 1
    ensures clicks.Some? ==> r == clicks.value + 1
  {
    match clicks
    case None => 1
    case Some(n) => n + 1
  }
}
