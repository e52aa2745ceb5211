/** The API's settings that are computed rather than read: the CORS origin
    list and the two list-valued CORS settings that may be given as JSON or
    as comma-separated text. */
module ApiSettings {
  import opened Common
  import opened PyStrings
  import Ordering

  /** `[item.strip() for item in s.split(',')]`: one item per comma-separated
      piece, each stripped of surrounding whitespace. */
  function SplitAndStrip(s: string): (r: seq<string>)
    ensures |r| == Count(s, ',') + 1
    ensures forall i :: 0 <= i < |r| ==> r[i] == StripSpace(Split(s, ',')[i])
  {
    Ordering.Map(Split(s, ','), StripSpace)
  }

  /** The `cors_allow_origins` property. */
  function CorsAllowOrigins(corsOrigins: string): (r: seq<string>)
    ensures r != []
    ensures |r| == Count(corsOrigins, ',') + 1
  {
    SplitAndStrip(corsOrigins)
  }

  /** Every item is a comma-free run of the input without whitespace at
      either end. */
  lemma SplitAndStripItems(s: string, i: int)
    requires 0 <= i < |SplitAndStrip(s)|
    ensures var item := SplitAndStrip(s)[i];
      ',' !in item
      && (item == [] || (!IsSpace(item[0]) && !IsSpace(item[|item| - 1])))
  {
    var piece := Split(s, ',')[i];
    var start := StripSlice(piece, IsSpace);
    if ',' in StripSpace(piece) {
      StripInside(piece, IsSpace, ',');
    }
  }

  /** A list of clean origins written out with commas reads back as the
      same list. */
  lemma SplitAndStripJoin(xs: seq<string>)
    requires xs != []
    requires forall i :: 0 <= i < |xs| ==> ',' !in xs[i]
    requires forall i :: 0 <= i < |xs| ==> xs[i] == [] || (!IsSpace(xs[i][0]) && !IsSpace(xs[i][|xs[i]| - 1]))
    ensures SplitAndStrip(Join(xs, ",")) == xs
  {
    SplitJoin(xs, ',');
    assert [','] == ",";
    forall i | 0 <= i < |xs| ensures StripSpace(xs[i]) == xs[i] {
      StripKeeps(xs[i], IsSpace);
    }
  }

  /** Read the other way: text whose pieces carry no surrounding whitespace
      is the comma-join of its origins. */
  lemma SplitAndStripRejoins(s: string)
    requires forall i :: 0 <= i < |Split(s, ',')| ==>
      var p := Split(s, ',')[i]; p == [] || (!IsSpace(p[0]) && !IsSpace(p[|p| - 1]))
    ensures Join(SplitAndStrip(s), ",") == s
  {
    forall i | 0 <= i < |Split(s, ',')| ensures StripSpace(Split(s, ',')[i]) == Split(s, ',')[i] {
      StripKeeps(Split(s, ',')[i], IsSpace);
    }
    assert SplitAndStrip(s) == Split(s, ',');
    JoinSplit(s, ',');
    assert [','] == ",";
  }

  /** A `Union[str, List[str]]` setting. */
  datatype ListSetting = TextSetting(text: string) | ListOf(items: seq<string>)

  /** The `parse_json_list` validator. `loads` is `json.loads` restricted to
      the values the field's type accepts: None stands for a
      JSONDecodeError. Text that is not JSON falls back to the comma
      split; anything that is not text passes through. */
  function ParseJsonList(v: ListSetting, loads: string -> Option<ListSetting>): (r: ListSetting)
    ensures v.ListOf? ==> r == v
    ensures v.TextSetting? && loads(v.text).Some? ==> r == loads(v.text).value
    ensures v.TextSetting? && loads(v.text).None? ==>
              r.ListOf? && |r.items| == Count(v.text, ',') + 1
              && forall i :: 0 <= i < |r.items| ==> r.items[i] == StripSpace(Split(v.text, ',')[i])
  {
    match v
    case ListOf(_) => v
    case TextSetting(s) =>
      match loads(s)
      case Some(parsed) => parsed
      case None => ListOf(SplitAndStrip(s))
  }

  /** A comma-separated list that is not JSON comes back as its items. */
  lemma ParseJsonListFallback(xs: seq<string>, loads: string -> Option<ListSetting>)
    requires xs != []
    requires forall i :: 0 <= i < |xs| ==> ',' !in xs[i]
    requires forall i :: 0 <= i < |xs| ==> xs[i] == [] || (!IsSpace(xs[i][0]) && !IsSpace(xs[i][|xs[i]| - 1]))
    requires loads(Join(xs, ",")) == None
    ensures ParseJsonList(TextSetting(Join(xs, ",")), loads) == ListOf(xs)
  {
    SplitAndStripJoin(xs);
  }
}
