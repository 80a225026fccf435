/** Extraction of the three display fields of a place-details response
    (`get_place_details`): phone number, opening hours and URL, each falling
    back to the placeholder "-". */
module Details {
  import opened Wrappers
  import opened Text

  /** `opening_hours`. */
  datatype OpeningHours = OpeningHours(weekdayText: Option<seq<string>>)

  /** `result` of a details response; a field is None when its key is absent. */
  datatype DetailsResult = DetailsResult(
    internationalPhoneNumber: Option<string>,
    openingHours: Option<OpeningHours>,
    url: Option<string>)

  /** The decoded JSON body of a details call. */
  datatype DetailsResponse = DetailsResponse(result: Option<DetailsResult>)

  /** The triple `(phone_number, opening_hours, url)`. */
  datatype PlaceDetails = PlaceDetails(phoneNumber: string, openingHours: string, url: string)

  /** What is shown in place of a missing field. */
  const Placeholder := "-"

  /** `r.json().get('result', {})`. */
  function ResultOf(resp: DetailsResponse): (r: DetailsResult)
    ensures resp.result.Some? ==> r == resp.result.value
    ensures resp.result.None? ==> r.internationalPhoneNumber.None? && r.openingHours.None? && r.url.None?
  {
    if resp.result.Some? then resp.result.value else DetailsResult(None, None, None)
  }

  /** `result.get('opening_hours', {}).get('weekday_text', [])`. */
  function WeekdayText(r: DetailsResult): (lines: seq<string>)
    ensures r.openingHours.None? ==> lines == []
    ensures r.openingHours.Some? && r.openingHours.value.weekdayText.None? ==> lines == []
    ensures r.openingHours.Some? && r.openingHours.value.weekdayText.Some? ==> lines == r.openingHours.value.weekdayText.value
  {
    if r.openingHours.Some? && r.openingHours.value.weekdayText.Some?
    then r.openingHours.value.weekdayText.value
    else []
  }

  /** `'\n'.join(lines) or '-'`. */
  function HoursText(lines: seq<string>): (hours: string)
    ensures hours != []
  {
    var joined := Join("\n", lines);
    if joined == [] then Placeholder else joined
  }

  /** `get_place_details` after the HTTP call: the response is given. Phone
      and URL fall back to the placeholder only when their key is absent. */
  function ExtractDetails(resp: DetailsResponse): (d: PlaceDetails)
    ensures ResultOf(resp).internationalPhoneNumber.None? ==> d.phoneNumber == Placeholder
    ensures ResultOf(resp).internationalPhoneNumber.Some? ==> d.phoneNumber == ResultOf(resp).internationalPhoneNumber.value
    ensures ResultOf(resp).url.None? ==> d.url == Placeholder
    ensures ResultOf(resp).url.Some? ==> d.url == ResultOf(resp).url.value
    ensures d.openingHours == HoursText(WeekdayText(ResultOf(resp)))
  {
    var r := ResultOf(resp);
    PlaceDetails(
      if r.internationalPhoneNumber.Some? then r.internationalPhoneNumber.value else Placeholder,
      HoursText(WeekdayText(r)),
      if r.url.Some? then r.url.value else Placeholder)
  }

  /** The hours show the placeholder exactly when the weekday lines join to
      nothing (no lines, or one empty line) or to the placeholder itself. */
  lemma {:induction false} HoursPlaceholderIff(lines: seq<string>)
    ensures HoursText(lines) == Placeholder <==> lines == [] || lines == [[]] || lines == [Placeholder]
  {
    JoinEmptyIff("\n", lines);
    if |lines| >= 2 {
      var rest := Join("\n", lines[1..]);
      assert Join("\n", lines) == lines[0] + "\n" + rest;
      assert Join("\n", lines)[|lines[0]|] == '\n';
    }
  }

  /** Otherwise the hours are the weekday lines, one per line: when no line
      holds a newline, splitting the hours on newlines gives the lines back. */
  lemma HoursRoundTrip(lines: seq<string>)
    requires lines != [] && lines != [[]]
    requires forall k :: 0 <= k < |lines| ==> '\n' !in lines[k]
    ensures HoursText(lines) == Join("\n", lines)
    ensures SplitOn('\n', HoursText(lines)) == lines
  {
    JoinEmptyIff("\n", lines);
    SplitOnJoin('\n', lines);
  }

  /** A details response without phone number and opening hours shows the
      placeholder for both. */
  lemma MissingFieldsShowPlaceholder(url: Option<string>)
    ensures var d := ExtractDetails(DetailsResponse(Some(DetailsResult(None, None, url))));
      d.phoneNumber == Placeholder && d.openingHours == Placeholder
  {
  }
}
