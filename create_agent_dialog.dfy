/** The submit step of the "Initialize Agent" dialog (client/src/components/CreateAgentDialog.tsx):
    parsing the comma-separated capabilities field and building the create payload. */
module CreateAgentDialog {
  import opened Wrappers
  import opened Schema
  import Text

  /** The form's values: the insert schema's fields plus the free-text capabilities field, which
      may be absent. */
  datatype FormData = FormData(
    name: string,
    status: string,
    currentTask: Omit<Option<string>>,
    capabilities: seq<string>,
    progress: Omit<Option<int>>,
    avatar: Omit<Option<string>>,
    capabilitiesString: Option<string>)

  /** `a` keeps some of the elements of `b`, in `b`'s order. */
  ghost predicate IsSubsequence(a: seq<string>, b: seq<string>)
    decreases |b|
  {
    a == [] || (b != [] && if a[0] == b[0] then IsSubsequence(a[1..], b[1..]) else IsSubsequence(a, b[1..]))
  }

  /** `.map((s) => s.trim())` */
  function TrimEach(pieces: seq<string>): (r: seq<string>)
    ensures |r| == |pieces|
    ensures forall k :: 0 <= k < |r| ==> r[k] == Text.Trim(pieces[k])
  {
    if pieces == [] then [] else [Text.Trim(pieces[0])] + TrimEach(pieces[1..])
  }

  /** `.filter(Boolean)` on strings: the non-empty ones, in order. */
  function NonEmpty(xs: seq<string>): (r: seq<string>)
    ensures |r| <= |xs|
    ensures forall k :: 0 <= k < |r| ==> r[k] != [] && r[k] in xs
    ensures IsSubsequence(r, xs)
    ensures (forall k :: 0 <= k < |xs| ==> xs[k] != []) ==> r == xs
    ensures |r| == |xs| - multiset(xs)[[]]
  {
    if xs == [] then []
    else
      assert xs == [xs[0]] + xs[1..];
      if xs[0] == [] then NonEmpty(xs[1..])
      else [xs[0]] + NonEmpty(xs[1..])
  }

  /** Nothing non-empty is filtered out. */
  lemma {:induction false} NonEmptyKeeps(xs: seq<string>, k: int)
    requires 0 <= k < |xs| && xs[k] != []
    ensures xs[k] in NonEmpty(xs)
  {
    if k > 0 {
      NonEmptyKeeps(xs[1..], k - 1);
    }
  }

  /** The capabilities the dialog submits for the text typed into the field. */
  function ParseCapabilities(input: Option<string>): (r: seq<string>)
    ensures input.None? || input.value == "" ==> r == []
    ensures input.Some? ==> |r| <= multiset(input.value)[','] + 1
    ensures input.Some? && input.value != "" ==> IsSubsequence(r, TrimEach(Text.Split(input.value, ',')))
    ensures input.Some? && input.value != "" ==>
              var pieces := TrimEach(Text.Split(input.value, ','));
              |r| == |pieces| - multiset(pieces)[[]]
  {
    if input.None? || input.value == "" then []
    else
      Text.SplitCount(input.value, ',');
      NonEmpty(TrimEach(Text.Split(input.value, ',')))
  }

  /** A capability as the dialog submits it: non-empty, no whitespace at either end, no comma. */
  predicate WellFormedCapability(cap: string) {
    cap != [] && !Text.IsWhitespace(cap[0]) && !Text.IsWhitespace(cap[|cap| - 1]) && ',' !in cap
  }

  /** Every parsed capability is well formed. */
  lemma CapabilitiesWellFormed(input: Option<string>)
    ensures forall k :: 0 <= k < |ParseCapabilities(input)| ==> WellFormedCapability(ParseCapabilities(input)[k])
  {
    if input.Some? && input.value != "" {
      var pieces := Text.Split(input.value, ',');
      TrimmedPieces(pieces);
      NonEmptyWellFormed(TrimEach(pieces));
    }
  }

  /** Trimming comma-free pieces gives empty or well-formed strings. */
  lemma TrimmedPieces(pieces: seq<string>)
    requires forall k :: 0 <= k < |pieces| ==> ',' !in pieces[k]
    ensures forall k :: 0 <= k < |pieces| ==> TrimEach(pieces)[k] == [] || WellFormedCapability(TrimEach(pieces)[k])
  {
    forall k | 0 <= k < |pieces|
      ensures Text.Trim(pieces[k]) == [] || WellFormedCapability(Text.Trim(pieces[k]))
    {
      TrimmedPiece(pieces[k]);
    }
  }

  /** Trimming a piece without commas leaves no commas and no whitespace at the ends. */
  lemma TrimmedPiece(piece: string)
    requires ',' !in piece
    ensures var t := Text.Trim(piece);
      && ',' !in t
      && (t == [] || (!Text.IsWhitespace(t[0]) && !Text.IsWhitespace(t[|t| - 1])))
  {
    Text.TrimSpec(piece);
    forall c | c in Text.Trim(piece)
      ensures c in piece
    {
      Text.TrimChars(piece, c);
    }
  }

  /** Dropping the empty strings from strings that are empty or well formed leaves only
      well-formed ones. */
  lemma {:induction false} NonEmptyWellFormed(xs: seq<string>)
    requires forall k :: 0 <= k < |xs| ==> xs[k] == [] || WellFormedCapability(xs[k])
    ensures forall k :: 0 <= k < |NonEmpty(xs)| ==> WellFormedCapability(NonEmpty(xs)[k])
  {
    if xs != [] {
      NonEmptyWellFormed(xs[1..]);
      assert forall k :: 0 <= k < |xs| - 1 ==> xs[1..][k] == xs[k + 1];
    }
  }

  /** Typing a list of well-formed capabilities separated by commas gives back exactly that list,
      in that order. */
  lemma ParseJoined(caps: seq<string>)
    requires forall k :: 0 <= k < |caps| ==> WellFormedCapability(caps[k])
    ensures ParseCapabilities(Some(Text.Join(caps, ","))) == caps
  {
    if caps != [] {
      JoinedNonEmpty(caps);
      SplitJoined(caps);
      TrimEachTrimmed(caps);
      NonEmptyAll(caps);
    }
  }

  lemma JoinedNonEmpty(caps: seq<string>)
    requires caps != [] && WellFormedCapability(caps[0])
    ensures Text.Join(caps, ",") != ""
  {
    assert |caps| > 1 ==> Text.Join(caps, ",") == caps[0] + "," + Text.Join(caps[1..], ",");
  }

  lemma SplitJoined(caps: seq<string>)
    requires caps != []
    requires forall k :: 0 <= k < |caps| ==> WellFormedCapability(caps[k])
    ensures Text.Split(Text.Join(caps, ","), ',') == caps
  {
    forall k | 0 <= k < |caps|
      ensures ',' !in caps[k]
    {
      assert WellFormedCapability(caps[k]);
    }
    Text.SplitJoin(caps, ',');
  }

  lemma {:induction false} TrimEachTrimmed(caps: seq<string>)
    requires forall k :: 0 <= k < |caps| ==> WellFormedCapability(caps[k])
    ensures TrimEach(caps) == caps
  {
    if caps != [] {
      assert WellFormedCapability(caps[0]);
      Text.TrimTrimmed(caps[0]);
      assert forall k :: 0 <= k < |caps| - 1 ==> caps[1..][k] == caps[k + 1];
      TrimEachTrimmed(caps[1..]);
      assert caps == [caps[0]] + caps[1..];
    }
  }

  lemma NonEmptyAll(caps: seq<string>)
    requires forall k :: 0 <= k < |caps| ==> WellFormedCapability(caps[k])
    ensures NonEmpty(caps) == caps
  {
    forall k | 0 <= k < |caps|
      ensures caps[k] != []
    {
      assert WellFormedCapability(caps[k]);
    }
  }

  /** `onSubmit`: the form's values with the parsed capabilities, and `status` and `progress`
      forced to "idle" and 0 whatever the form held. */
  function SubmitPayload(form: FormData): (x: InsertAgent)
    ensures x.status == "idle" && x.progress == Given(Some(0))
    ensures x.capabilities == ParseCapabilities(form.capabilitiesString)
    ensures x.name == form.name && x.currentTask == form.currentTask && x.avatar == form.avatar
  {
    InsertAgent(form.name, "idle", form.currentTask, ParseCapabilities(form.capabilitiesString),
                Given(Some(0)), form.avatar)
  }

  /** The form's own status, progress and capabilities never reach the payload. */
  lemma SubmitIgnoresOverriddenFields(form: FormData, status: string, progress: Omit<Option<int>>,
                                      capabilities: seq<string>)
    ensures SubmitPayload(form.(status := status, progress := progress, capabilities := capabilities))
            == SubmitPayload(form)
  {
  }

  /** An agent created from the dialog is stored idle, with progress 0. */
  lemma SubmittedAgentIsIdle(form: FormData, id: int, now: Timestamp)
    ensures NewRow(SubmitPayload(form), id, now).status == "idle"
    ensures NewRow(SubmitPayload(form), id, now).progress == Some(0)
  {
  }
}
