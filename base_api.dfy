/**
 * The helpers every API service shares: the message of the error raised
 * for a failed request, the record list pulled out of a response, and
 * the initials shown for a name.
 */
module BaseApi {
  import opened Wrappers
  import opened JsValues
  import opened JsText

  // ---------------------------------------------------------------------
  // handleError

  /** What `handleError` throws. */
  datatype Thrown =
    | Error(message: string)   // `new Error(message)`
    | Rethrown(error: Value)   // `throw error`
    | TypeError                // reading `response` of `null` or `undefined`

  /** `String(status) + ' ' + String(statusText)` after the `API error: ` prefix. */
  function StatusMessage(response: Value): string {
    "API error: " + ToText(Prop(response, "status")) + " " + ToText(Prop(response, "statusText"))
  }

  /** `handleError(error, context)`: it never returns, so only what it throws is modelled. */
  function HandleError(error: Value): Thrown {
    if IsNullish(error) then TypeError
    else
      var response := Prop(error, "response");
      if Truthy(response) then
        var data := Prop(response, "data");
        Error(ToText(Or(Or(Prop(data, "message"), Prop(data, "error")), Str(StatusMessage(response)))))
      else if Truthy(Prop(error, "request")) then Error("No response received from API")
      else Rethrown(error)
  }

  /**
   * The precedence of the message: a server reply gives the reply's
   * `message`, else its `error`, else the status line; a request without
   * a reply gives the fixed message; any other error is thrown again as
   * it is.
   */
  lemma ErrorPrecedence(error: Value)
    requires !IsNullish(error)
    ensures var response := Prop(error, "response");
      var data := Prop(response, "data");
      (Truthy(response) && Truthy(Prop(data, "message")) ==>
         HandleError(error) == Error(ToText(Prop(data, "message"))))
      && (Truthy(response) && !Truthy(Prop(data, "message")) && Truthy(Prop(data, "error")) ==>
         HandleError(error) == Error(ToText(Prop(data, "error"))))
      && (Truthy(response) && !Truthy(Prop(data, "message")) && !Truthy(Prop(data, "error")) ==>
         HandleError(error) == Error(StatusMessage(response))
         && StartsWith(HandleError(error).message, "API error: "))
      && (!Truthy(response) && Truthy(Prop(error, "request")) ==>
         HandleError(error) == Error("No response received from API"))
      && (!Truthy(response) && !Truthy(Prop(error, "request")) ==> HandleError(error) == Rethrown(error))
  {
    var response := Prop(error, "response");
    var m := StatusMessage(response);
    assert m[..|"API error: "|] == "API error: ";
  }

  /** A reply from the server, whatever its body, always becomes a new error and is never passed on. */
  lemma ReplyBecomesError(error: Value)
    requires Truthy(Prop(error, "response"))
    ensures HandleError(error).Error?
  {
  }

  // ---------------------------------------------------------------------
  // extractData

  /** `extractData(responseData)`: the first of `data`, `documents` and the response itself that is an array. */
  function ExtractData(responseData: Value): (r: seq<Value>)
    ensures r == [] || Arr(r) == Prop(responseData, "data") || Arr(r) == Prop(responseData, "documents")
                    || Arr(r) == responseData
  {
    var data := Prop(responseData, "data");
    var documents := Prop(responseData, "documents");
    if Truthy(data) && data.Arr? then data.items
    else if Truthy(documents) && documents.Arr? then documents.items
    else if responseData.Arr? then responseData.items
    else []
  }

  /** An array has no `data` or `documents` property. */
  lemma ArrayHasNoFields(items: seq<Value>)
    ensures Prop(Arr(items), "data") == Undefined && Prop(Arr(items), "documents") == Undefined
  {
  }

  /**
   * A bare array is its own record list, so extracting twice changes
   * nothing; an array under `data` wins over one under `documents`, which
   * wins over the rest; a response without any array gives `[]`.
   */
  lemma ExtractDataSpec(items: seq<Value>, body: map<string, Value>)
    ensures ExtractData(Arr(items)) == items
    ensures ExtractData(Obj(body["data" := Arr(items)])) == items
    ensures Prop(Obj(body), "data").Arr? || ExtractData(Obj(body["documents" := Arr(items)])) == items
    ensures !Prop(Obj(body), "data").Arr? && !Prop(Obj(body), "documents").Arr? ==> ExtractData(Obj(body)) == []
  {
    ArrayHasNoFields(items);
  }

  /** Extracting from the extracted list gives the list back. */
  lemma ExtractDataIdempotent(responseData: Value)
    ensures ExtractData(Arr(ExtractData(responseData))) == ExtractData(responseData)
  {
    ArrayHasNoFields(ExtractData(responseData));
  }

  // ---------------------------------------------------------------------
  // getInitials

  /**
   * The branch for two or more words: the first letters of the first and
   * the last word of the trimmed name, upper-cased; `None` for one word.
   */
  function WordInitials(name: string): (r: Option<string>)
    ensures r.Some? ==> |r.value| == 2
    ensures r.Some? ==> forall i :: 0 <= i < 2 ==> !IsLowerLetter(r.value[i]) && !IsSpace(r.value[i])
  {
    var t := Trim(name);
    var parts := SplitSpaces(t);
    if |parts| >= 2 then
      SplitSpacesNonEmpty(t);
      Some(Upper([parts[0][0], parts[|parts| - 1][0]]))
    else None
  }

  /** `s.substring(0, 2).toUpperCase()` */
  function FirstTwo(s: string): (r: string)
    ensures |r| <= 2 && forall i :: 0 <= i < |r| ==> !IsLowerLetter(r[i])
  {
    Upper(s[..if |s| < 2 then |s| else 2])
  }

  /**
   * `getInitials(name)`, as written; `None` stands for the `TypeError` of
   * calling `trim` on a truthy value that is not a string. One word keeps
   * the first two characters of the untrimmed name.
   */
  function GetInitials(name: Value): (r: Option<string>)
    ensures r.None? <==> Truthy(name) && !name.Str?
    ensures r.Some? ==> |r.value| <= 2 && forall i :: 0 <= i < |r.value| ==> !IsLowerLetter(r.value[i])
  {
    if !Truthy(name) then Some("")
    else if !name.Str? then None
    else match WordInitials(name.s)
      case Some(w) => Some(w)
      case None => Some(FirstTwo(name.s))
  }

  /** The space-free word `w` followed by white space starts with a run of length `|w|`. */
  lemma {:induction false} SpaceAfterWord(w: string, rest: string)
    requires forall i :: 0 <= i < |w| ==> !IsSpace(w[i])
    requires rest != [] && IsSpace(rest[0])
    ensures SpaceAt(w + rest) == |w|
    decreases |w|
  {
    if w != [] {
      assert (w + rest)[1..] == w[1..] + rest;
      SpaceAfterWord(w[1..], rest);
    }
  }

  /** A string that neither starts nor ends with white space is its own trim. */
  lemma TrimmedAlready(s: string)
    requires s != [] && !IsSpace(s[0]) && !IsSpace(s[|s| - 1])
    ensures Trim(s) == s
  {
    assert TrimStart(s) == s;
    assert TrimEnd(s) == s;
  }

  /** White space before a word is dropped by `trimStart`. */
  lemma TrimBeforeWord(w: string)
    requires w != [] && !IsSpace(w[0])
    ensures TrimStart(" " + w) == w
  {
    assert (" " + w)[1..] == w;
    assert TrimStart(w) == w;
  }

  /** Two words separated by a space are already trimmed and split into exactly those words. */
  lemma SplitTwoWords(w1: string, w2: string)
    requires w1 != [] && w2 != []
    requires forall i :: 0 <= i < |w1| ==> !IsSpace(w1[i])
    requires forall i :: 0 <= i < |w2| ==> !IsSpace(w2[i])
    ensures var s := w1 + (" " + w2);
      Trim(s) == s && SplitSpaces(s) == [w1, w2]
  {
    var rest := " " + w2;
    var s := w1 + rest;
    assert s[0] == w1[0];
    assert s[|s| - 1] == rest[|rest| - 1] == w2[|w2| - 1];
    TrimmedAlready(s);
    SplitAfterFirst(w1, w2);
  }

  lemma SplitAfterFirst(w1: string, w2: string)
    requires w1 != [] && w2 != []
    requires forall i :: 0 <= i < |w1| ==> !IsSpace(w1[i])
    requires forall i :: 0 <= i < |w2| ==> !IsSpace(w2[i])
    ensures w1 + (" " + w2) == [] || !IsSpace((w1 + (" " + w2))[0])
    ensures SplitSpaces(w1 + (" " + w2)) == [w1, w2]
  {
    FirstWord(w1, " " + w2);
    TrimBeforeWord(w2);
    SplitOneWord(w2);
  }

  /** A word followed by white space and more text is split off as the first part. */
  lemma FirstWord(w: string, rest: string)
    requires w != [] && forall i :: 0 <= i < |w| ==> !IsSpace(w[i])
    requires rest != [] && IsSpace(rest[0])
    ensures SplitSpaces(w + rest) == [w] + SplitSpaces(TrimStart(rest))
  {
    var s := w + rest;
    SpaceAfterWord(w, rest);
    assert s[..|w|] == w && s[|w|..] == rest;
  }

  /** Two names give the upper-cased first letter of each. */
  lemma InitialsOfTwoWords(w1: string, w2: string)
    requires w1 != [] && w2 != []
    requires forall i :: 0 <= i < |w1| ==> !IsSpace(w1[i])
    requires forall i :: 0 <= i < |w2| ==> !IsSpace(w2[i])
    ensures GetInitials(Str(w1 + (" " + w2))) == Some([UpperChar(w1[0]), UpperChar(w2[0])])
  {
    var s := w1 + (" " + w2);
    SplitTwoWords(w1, w2);
    assert WordInitials(s) == Some(Upper([w1[0], w2[0]]));
    assert Upper([w1[0], w2[0]]) == [UpperChar(w1[0]), UpperChar(w2[0])];
    assert Truthy(Str(s));
  }

  /** A name whose trimmed form is a single word takes the one-word branch. */
  lemma OneWordBranch(name: string, w: string)
    requires Trim(name) == w && forall i :: 0 <= i < |w| ==> !IsSpace(w[i])
    ensures WordInitials(name) == None
  {
    SplitOneWord(w);
  }

  /** A single word gives its first two characters (or the one), upper-cased. */
  lemma InitialsOfOneWord(w: string)
    requires w != []
    requires forall i :: 0 <= i < |w| ==> !IsSpace(w[i])
    ensures GetInitials(Str(w)) == Some(Upper(w[..if |w| < 2 then |w| else 2]))
  {
    assert !IsSpace(w[0]) && !IsSpace(w[|w| - 1]);
    TrimmedAlready(w);
    OneWordBranch(w, w);
    assert Truthy(Str(w));
    assert GetInitials(Str(w)) == Some(FirstTwo(w));
  }

  /** A single name with a leading space gets a blank initial: `' Bob'` gives `' B'`. */
  lemma LeadingSpaceInitial(w: string)
    requires w != [] && forall i :: 0 <= i < |w| ==> !IsSpace(w[i])
    ensures GetInitials(Str(" " + w)) == Some([' ', UpperChar(w[0])])
  {
    var s := " " + w;
    TrimBeforeWord(w);
    assert TrimEnd(w) == w;
    OneWordBranch(s, w);
    assert s[..2] == [' ', w[0]];
    assert FirstTwo(s) == Upper([' ', w[0]]);
    assert Upper([' ', w[0]]) == [' ', UpperChar(w[0])];
    assert Truthy(Str(s));
  }

  /**
   * `getInitials` with the one-word case taken from the trimmed name, as
   * the two-word case already is: initials never hold white space.
   */
  function GetInitialsTrimmed(name: Value): (r: Option<string>)
    ensures r.None? <==> Truthy(name) && !name.Str?
    ensures r.Some? ==> |r.value| <= 2
    ensures r.Some? ==> forall i :: 0 <= i < |r.value| ==> !IsLowerLetter(r.value[i]) && !IsSpace(r.value[i])
  {
    if !Truthy(name) then Some("")
    else if !name.Str? then None
    else match WordInitials(name.s)
      case Some(w) => Some(w)
      case None =>
        var t := Trim(name.s);
        OnePart(t);
        Some(FirstTwo(t))
  }

  /** A string that splits into one part holds no white space. */
  lemma OnePart(t: string)
    requires t == [] || !IsSpace(t[0])
    requires |SplitSpaces(t)| < 2
    ensures forall i :: 0 <= i < |t| ==> !IsSpace(t[i])
    ensures forall i :: 0 <= i < |FirstTwo(t)| ==> !IsSpace(FirstTwo(t)[i])
  {
    assert SpaceAt(t) == |t|;
  }

  /** The corrected initials agree with the written ones for a name without surrounding white space. */
  lemma TrimmedAgrees(name: Value)
    requires name.Str? ==> Trim(name.s) == name.s
    ensures GetInitialsTrimmed(name) == GetInitials(name)
  {
  }
}
