/** `submit_request`: the mediator fetches the booking service's RDG,
    prepares and posts the RIG, and turns the answer into booking options.
    The two HTTP exchanges are parameters: each gives the parsed graph of a
    successful (200) response, or nothing. */
module SubmitRequest {
  import opened Wrappers
  import opened RdfGraph
  import opened BookingWindow
  import opened RigPreparation
  import opened RrgExtraction
  import opened ShiftedResults

  // ---------------------------------------------------------------------
  // Endpoints
  // ---------------------------------------------------------------------

  /** `s.rstrip('/')`: `s` without its trailing slashes. */
  function RStripSlash(s: string): (r: string)
    ensures r <= s
    ensures r == [] || r[|r| - 1] != '/'
    ensures forall i :: |r| <= i < |s| ==> s[i] == '/'
  {
    if s != [] && s[|s| - 1] == '/' then RStripSlash(s[..|s| - 1]) else s
  }

  /** `booking_service_url.rstrip('/') + '/rdg'`. */
  function RdgEndpoint(url: string): (r: string)
    ensures |r| >= 4 && r[|r| - 4..] == "/rdg"
    ensures |r| == 4 || r[|r| - 5] != '/'
    ensures r[..|r| - 4] <= url
    ensures forall i :: |r| - 4 <= i < |url| ==> url[i] == '/'
  {
    var base := RStripSlash(url);
    assert (base + "/rdg")[..|base|] == base;
    base + "/rdg"
  }

  /** `booking_service_url + "/process_rig"`, as the source builds it. */
  function ProcessRigEndpointAsWritten(url: string): string {
    url + "/process_rig"
  }

  /** The service URL goes through `rstrip('/')` for the RDG but not for the
      RIG: with a trailing slash the RIG is posted to a path with a double
      slash, while the RDG is fetched from the same place as without it. */
  lemma ProcessRigDoubleSlash()
    ensures ProcessRigEndpointAsWritten("http://h/") == "http://h//process_rig"
    ensures ProcessRigEndpointAsWritten("http://h/") != ProcessRigEndpointAsWritten("http://h")
    ensures RdgEndpoint("http://h/") == RdgEndpoint("http://h")
  {
    assert RStripSlash("http://h/") == "http://h" by {
      assert "http://h/"[..|"http://h/"| - 1] == "http://h";
    }
    assert |ProcessRigEndpointAsWritten("http://h/")| != |ProcessRigEndpointAsWritten("http://h")|;
  }

  /** The RIG endpoint built like the RDG one. */
  function ProcessRigEndpoint(url: string): (r: string)
    ensures |r| >= 12 && r[|r| - 12..] == "/process_rig"
    ensures |r| == 12 || r[|r| - 13] != '/'
    ensures r[..|r| - 12] <= url
    ensures forall i :: |r| - 12 <= i < |url| ==> url[i] == '/'
  {
    var base := RStripSlash(url);
    assert (base + "/process_rig")[..|base|] == base;
    base + "/process_rig"
  }

  /** Trailing slashes on the service URL change neither endpoint, and both
      endpoints sit under the same base. */
  lemma EndpointsIgnoreTrailingSlash(url: string)
    ensures RdgEndpoint(url + "/") == RdgEndpoint(url)
    ensures ProcessRigEndpoint(url + "/") == ProcessRigEndpoint(url)
    ensures RdgEndpoint(url)[..|RdgEndpoint(url)| - 4] ==
      ProcessRigEndpoint(url)[..|ProcessRigEndpoint(url)| - 12]
  {
    assert (url + "/")[..|url + "/"| - 1] == url;
    var base := RStripSlash(url);
    assert (base + "/rdg")[..|base|] == base;
    assert (base + "/process_rig")[..|base|] == base;
  }

  // ---------------------------------------------------------------------
  // The whole request
  // ---------------------------------------------------------------------

  /** What the mediator answers: one of its two error pages, or the result
      page for the options of `generate_shifted_booking_results` (an error
      there is an exception, so an HTTP 500). */
  datatype Reply =
    | RdgFailed
    | ProcessingFailed
    | Booking(options: Result<seq<BookingOption>>)

  /** What `generate_shifted_booking_results` promises for the form: the
      walk succeeds exactly when the window and every booking period fit the
      calendar, and then lists one option per window day, in order. */
  predicate ShiftedPage(options: Result<seq<BookingOption>>, cottage: map<string, string>, form: BookingForm) {
    var w := ShiftWindow(form.startDate, form.maxShiftDays);
    && (options.Ok? <==> w.Ok? && WalkFits(w.value.earliest, w.value.latest, form.duration))
    && (options.Ok? ==>
          && |options.value| == (if form.maxShiftDays >= 0 then 2 * form.maxShiftDays + 1 else 0)
          && forall i :: 0 <= i < |options.value| ==>
               OptionAt(options.value[i], i, w.value.earliest, cottage, form.bookerName, form.duration))
  }

  /** `submit_request`.  `fetchRdg` and `postRig` stand for the two HTTP
      exchanges; `rig` is the graph posted and `mid` the RDG after
      preprocessing.  The RIG goes to `url + "/process_rig"`, as the source
      builds it. */
  method SubmitBookingRequest(
    url: string,
    form: BookingForm,
    fetchRdg: string -> Option<set<Triple>>,
    postRig: (string, set<Triple>) -> Option<seq<Triple>>)
    returns (reply: Reply, rig: set<Triple>, mid: set<Triple>)
    ensures fetchRdg(RdgEndpoint(url)).None? ==> reply == RdgFailed
    ensures fetchRdg(RdgEndpoint(url)).Some? ==>
      var rdg := fetchRdg(RdgEndpoint(url)).value;
      Preprocessed(rdg, rdg, mid) && rig == Postprocessed(FormUpdated(mid, FormData(form)))
    ensures fetchRdg(RdgEndpoint(url)).Some? ==>
      match postRig(ProcessRigEndpointAsWritten(url), rig)
      case None => reply == ProcessingFailed
      case Some(rrg) => reply.Booking? && ShiftedPage(reply.options, ExtractSpec(rrg), form)
  {
    var rdgEndpoint := RdgEndpoint(url);
    var rdgResponse := fetchRdg(rdgEndpoint);
    if rdgResponse.None? {
      return RdgFailed, {}, {};
    }
    rig, mid := PrepareRig(rdgResponse.value, FormData(form));
    var rrgResponse := postRig(ProcessRigEndpointAsWritten(url), rig);
    if rrgResponse.None? {
      return ProcessingFailed, rig, mid;
    }
    var extracted := ExtractDataFromRrg(rrgResponse.value);
    var options := GenerateShiftedBookingResults(extracted, form.maxShiftDays, form.startDate, form.duration, form.bookerName);
    reply := Booking(options);
  }
}
