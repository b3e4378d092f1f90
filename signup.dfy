/**
 * The signup form's submission state machine (src/signup/index.js).
 *
 * The screen keeps a record of the four entered values, a field-to-message
 * error map, `isSubmitting` and `loading`. `submit` validates, refuses to go
 * to the network while errors remain, sends name/email/password to the
 * signup mutation and either stores the server's errors or resets the form;
 * `onChangeText` edits one value and drops that field's error.
 *
 * The schema validation and the mutation are not part of this model: their
 * outcomes (already formatted into error maps) are inputs of `Submit`. The
 * component's `setState` is an immediate assignment.
 */
module Signup {
  import opened Wrappers

  /** A field path mapped to its human-readable message. */
  type ErrorMap = map<string, string>

  /** The four inputs of the form. */
  datatype Field = Name | Email | Password | ConfirmPassword {
    /** The key the field has in `values` and in `errors`. */
    function Key(): (k: string)
      ensures k in FieldKeys
    {
      match this
      case Name => "name"
      case Email => "email"
      case Password => "password"
      case ConfirmPassword => "confirmPassword"
    }
  }

  const FieldKeys: set<string> := {"name", "email", "password", "confirmPassword"}

  datatype Values = Values(name: string, email: string, password: string, confirmPassword: string) {
    function Get(f: Field): string {
      match f
      case Name => name
      case Email => email
      case Password => password
      case ConfirmPassword => confirmPassword
    }

    /** The values with field `f` set to `text` (the object spread with `[key]: value`). */
    function With(f: Field, text: string): (r: Values)
      ensures r.Get(f) == text
      ensures forall g :: g != f ==> r.Get(g) == Get(g)
    {
      match f
      case Name => this.(name := text)
      case Email => this.(email := text)
      case Password => this.(password := text)
      case ConfirmPassword => this.(confirmPassword := text)
    }
  }

  datatype FormState = FormState(values: Values, errors: ErrorMap, isSubmitting: bool, loading: bool)

  const DefaultValues := Values("", "", "", "")

  /** The state the screen starts in and returns to after a successful signup. */
  const DefaultState := FormState(DefaultValues, map[], false, false)

  /** The default form: every value empty, no errors, neither flag set. */
  lemma DefaultStateIsEmpty()
    ensures forall f :: DefaultState.values.Get(f) == ""
    ensures DefaultState.errors == map[] && !DefaultState.isSubmitting && !DefaultState.loading
  {
  }

  /** The variables of the signup mutation. */
  datatype SignupVariables = SignupVariables(name: string, email: string, password: string)

  function RequestFor(v: Values): SignupVariables {
    SignupVariables(v.name, v.email, v.password)
  }

  datatype User = User(name: string, email: string)

  /**
   * What the signup mutation answers. `ServerRejected` carries the formatted
   * server errors; it stands for any response whose `errors` is truthy, an
   * empty list included. `Accepted` is a response without errors.
   */
  datatype MutationOutcome = ServerRejected(formatted: ErrorMap) | Accepted(token: string, user: User)

  /**
   * One submit: `pending` is the state at the moment the mutation is called
   * (the final state when it is not called), `next` the state after the
   * handler returns, `request` the mutation call it made, if any.
   */
  datatype Transition = Transition(pending: FormState, next: FormState, request: Option<SignupVariables>)

  /**
   * One call of `submit`, given the formatted validation errors (`None` when
   * the schema accepts the values) and what the mutation answers if called.
   */
  function Submitted(s: FormState, validation: Option<ErrorMap>, outcome: MutationOutcome): (t: Transition)
    ensures t.request.Some? ==> !s.isSubmitting && t.request.value == RequestFor(s.values)
    ensures t.request.Some? ==>
      t.pending == s.(errors := map[], isSubmitting := true) && t.request.value == RequestFor(t.pending.values)
    ensures t.request.None? ==> t.pending == t.next && t.next.values == s.values && t.next.loading == s.loading
  {
    if s.isSubmitting then Transition(s, s, None)
    else
      var checked := s.(errors := validation.GetOr(s.errors));
      if |checked.errors| != 0 then
        var blocked := checked.(isSubmitting := false);
        Transition(blocked, blocked, None)
      else
        var pending := checked.(isSubmitting := true);
        match outcome
        case ServerRejected(formatted) => Transition(pending, pending.(errors := formatted), Some(RequestFor(s.values)))
        case Accepted(_, _) => Transition(pending, DefaultState, Some(RequestFor(s.values)))
  }

  /** One call of `onChangeText(f.Key(), text)`. */
  function Edited(s: FormState, f: Field, text: string): (r: FormState)
    ensures r.values.Get(f) == text
    ensures forall g :: g != f ==> r.values.Get(g) == s.values.Get(g)
    ensures forall k :: k in r.errors <==> k in s.errors && k != f.Key()
    ensures forall k :: k in r.errors ==> r.errors[k] == s.errors[k]
    ensures !r.isSubmitting && r.loading == s.loading
  {
    s.(values := s.values.With(f, text), errors := s.errors - {f.Key()}, isSubmitting := false)
  }

  /** The mounted screen component and its mutable state. */
  class Signup {
    var values: Values
    var errors: ErrorMap
    var isSubmitting: bool
    var loading: bool

    function State(): FormState
      reads this
    {
      FormState(values, errors, isSubmitting, loading)
    }

    constructor ()
      ensures State() == DefaultState
    {
      values, errors, isSubmitting, loading := DefaultValues, map[], false, false;
    }

    /**
     * The `submit` handler. `request` is the variables the mutation was
     * called with, `None` when the network was not contacted.
     */
    method Submit(validation: Option<ErrorMap>, outcome: MutationOutcome) returns (request: Option<SignupVariables>)
      modifies this
      ensures State() == Submitted(old(State()), validation, outcome).next
      ensures request == Submitted(old(State()), validation, outcome).request
      ensures old(isSubmitting) ==> request.None? && unchanged(this)
      ensures request.Some? ==> old(errors) == map[] || validation == Some(map[])
    {
      if isSubmitting {
        return None;
      }

      if validation.Some? {
        errors := validation.value;
      }

      if |errors| != 0 {
        isSubmitting := false;
        return None;
      }

      isSubmitting := true;
      request := Some(SignupVariables(values.name, values.email, values.password));
      // the mutation is in flight: the form is flagged and its errors are empty
      assert State() == Submitted(old(State()), validation, outcome).pending;

      if outcome.ServerRejected? {
        errors := outcome.formatted;
        return;
      }

      values, errors, isSubmitting, loading := DefaultValues, map[], false, false;
    }

    /** The `onChangeText` handler for the input of field `f`. */
    method OnChangeText(f: Field, text: string)
      modifies this
      ensures State() == Edited(old(State()), f, text)
    {
      var remaining := errors - {f.Key()};
      values := values.With(f, text);
      errors := remaining;
      isSubmitting := false;
    }
  }

  // ---------------------------------------------------------------------
  // Properties of one submit
  // ---------------------------------------------------------------------

  /** A submit while one is flagged returns at once, whatever validation and server would say. */
  lemma SubmitWhileSubmittingIgnored(s: FormState, validation: Option<ErrorMap>, outcome: MutationOutcome)
    requires s.isSubmitting
    ensures Submitted(s, validation, outcome) == Transition(s, s, None)
  {
  }

  /** Failed validation replaces the errors wholesale and never reaches the network. */
  lemma InvalidFormNotSent(s: FormState, found: ErrorMap, outcome: MutationOutcome)
    requires !s.isSubmitting && found != map[]
    ensures Submitted(s, Some(found), outcome) == Transition(s.(errors := found), s.(errors := found), None)
  {
  }

  /** The mutation is called exactly when no submit is flagged and the errors are empty after validation. */
  lemma SentIffNoErrors(s: FormState, validation: Option<ErrorMap>, outcome: MutationOutcome)
    ensures Submitted(s, validation, outcome).request.Some? <==> !s.isSubmitting && validation.GetOr(s.errors) == map[]
  {
  }

  /** Errors left over from before block the network call even when validation passes. */
  lemma LeftoverErrorsBlock(s: FormState, outcome: MutationOutcome)
    requires !s.isSubmitting && s.errors != map[]
    ensures Submitted(s, None, outcome) == Transition(s, s, None)
  {
  }

  /** The mutation gets name, email and password; confirmPassword never leaves the form. */
  lemma ConfirmPasswordNeverSent(s: FormState, text: string, validation: Option<ErrorMap>, outcome: MutationOutcome)
    requires Submitted(s, validation, outcome).request.Some?
    ensures Submitted(s, validation, outcome).request == Some(SignupVariables(s.values.name, s.values.email, s.values.password))
    ensures Submitted(s.(values := s.values.With(ConfirmPassword, text)), validation, outcome).request
         == Submitted(s, validation, outcome).request
  {
  }

  /** A press while the mutation is in flight changes nothing and sends nothing. */
  lemma PressWhileInFlightIgnored(s: FormState, validation: Option<ErrorMap>, outcome: MutationOutcome,
                                  again: Option<ErrorMap>, outcome2: MutationOutcome)
    requires Submitted(s, validation, outcome).request.Some?
    ensures var inFlight := Submitted(s, validation, outcome).pending;
      inFlight.isSubmitting && Submitted(inFlight, again, outcome2) == Transition(inFlight, inFlight, None)
  {
  }

  /** Server errors are stored; values are kept, the form stays flagged as submitting, nothing is reset. */
  lemma ServerErrorsKept(s: FormState, validation: Option<ErrorMap>, formatted: ErrorMap)
    requires Submitted(s, validation, ServerRejected(formatted)).request.Some?
    ensures Submitted(s, validation, ServerRejected(formatted)).next == s.(errors := formatted, isSubmitting := true)
  {
  }

  /** A response without errors resets the whole state to the defaults. */
  lemma SuccessResets(s: FormState, validation: Option<ErrorMap>, token: string, user: User)
    requires Submitted(s, validation, Accepted(token, user)).request.Some?
    ensures var n := Submitted(s, validation, Accepted(token, user)).next;
      (forall f :: n.values.Get(f) == "") && n.errors == map[] && !n.isSubmitting && !n.loading
  {
  }

  // ---------------------------------------------------------------------
  // Sessions: sequences of presses and edits
  // ---------------------------------------------------------------------

  /** A user action on the screen. */
  datatype Event =
    | Press(validation: Option<ErrorMap>, outcome: MutationOutcome)
    | Type(field: Field, text: string)

  /** The state after a run of events, and every mutation call made, in order. */
  datatype Session = Session(state: FormState, requests: seq<SignupVariables>)

  function Sent(request: Option<SignupVariables>): seq<SignupVariables> {
    match request
    case Some(v) => [v]
    case None => []
  }

  /** The number of presses among the events. */
  function Presses(events: seq<Event>): nat
    decreases |events|
  {
    if events == [] then 0 else (if events[0].Press? then 1 else 0) + Presses(events[1..])
  }

  /** The handlers applied to the events in order; edits send nothing, each press at most one request. */
  function Run(s: FormState, events: seq<Event>): (r: Session)
    ensures |r.requests| <= Presses(events)
    decreases |events|
  {
    if events == [] then Session(s, [])
    else
      match events[0]
      case Press(validation, outcome) =>
        var t := Submitted(s, validation, outcome);
        var rest := Run(t.next, events[1..]);
        Session(rest.state, Sent(t.request) + rest.requests)
      case Type(f, text) =>
        Run(Edited(s, f, text), events[1..])
  }

  predicate OnlyPresses(events: seq<Event>) {
    forall i :: 0 <= i < |events| ==> events[i].Press?
  }

  /** While a submit is flagged, any number of further presses change nothing and send nothing. */
  lemma {:induction false} PressesIgnoredWhileSubmitting(s: FormState, events: seq<Event>)
    requires s.isSubmitting && OnlyPresses(events)
    ensures Run(s, events) == Session(s, [])
    decreases |events|
  {
    if events != [] {
      assert events[0].Press?;
      assert OnlyPresses(events[1..]) by {
        forall i | 0 <= i < |events[1..]| ensures events[1..][i].Press? {
          assert events[1..][i] == events[i + 1];
        }
      }
      PressesIgnoredWhileSubmitting(s, events[1..]);
    }
  }

  /**
   * After the server rejected a signup, the form is locked: presses do
   * nothing until an edit, and an edit unlocks it.
   */
  lemma RejectedFormLockedUntilEdit(s: FormState, validation: Option<ErrorMap>, formatted: ErrorMap,
                                    presses: seq<Event>, f: Field, text: string)
    requires Submitted(s, validation, ServerRejected(formatted)).request.Some?
    requires OnlyPresses(presses)
    ensures var locked := Submitted(s, validation, ServerRejected(formatted)).next;
      Run(locked, presses) == Session(locked, []) && !Edited(locked, f, text).isSubmitting
  {
    PressesIgnoredWhileSubmitting(Submitted(s, validation, ServerRejected(formatted)).next, presses);
  }

  predicate OnlyRejectedPresses(events: seq<Event>) {
    forall i :: 0 <= i < |events| ==> events[i].Press? && events[i].outcome.ServerRejected?
  }

  /**
   * Without an edit or a successful signup in between, presses reach the
   * server at most once: the first rejection locks the form.
   */
  lemma {:induction false} RejectedPressesSendAtMostOnce(s: FormState, events: seq<Event>)
    requires OnlyRejectedPresses(events)
    ensures |Run(s, events).requests| <= 1
    decreases |events|
  {
    if events != [] {
      var e := events[0];
      assert e.Press? && e.outcome.ServerRejected?;
      var t := Submitted(s, e.validation, e.outcome);
      assert OnlyPresses(events[1..]) by {
        forall i | 0 <= i < |events[1..]| ensures events[1..][i].Press? {
          assert events[1..][i] == events[i + 1];
        }
      }
      if t.request.Some? {
        PressesIgnoredWhileSubmitting(t.next, events[1..]);
      } else {
        assert OnlyRejectedPresses(events[1..]) by {
          forall i | 0 <= i < |events[1..]|
            ensures events[1..][i].Press? && events[1..][i].outcome.ServerRejected?
          {
            assert events[1..][i] == events[i + 1];
          }
        }
        RejectedPressesSendAtMostOnce(t.next, events[1..]);
      }
    }
  }

  predicate ValidationPasses(events: seq<Event>) {
    forall i :: 0 <= i < |events| && events[i].Press? ==> events[i].validation.None?
  }

  /**
   * An error stored under a key that is not one of the four fields (a server
   * error for another path) is never removed by an edit, and as long as the
   * schema accepts the values it blocks every submit: no mutation is sent.
   */
  lemma {:induction false} ForeignErrorBlocks(s: FormState, events: seq<Event>, k: string)
    requires k in s.errors && k !in FieldKeys
    requires ValidationPasses(events)
    ensures k in Run(s, events).state.errors && Run(s, events).requests == []
    decreases |events|
  {
    if events != [] {
      var next := match events[0]
        case Press(validation, outcome) => Submitted(s, validation, outcome).next
        case Type(f, text) => Edited(s, f, text);
      match events[0] {
        case Press(validation, outcome) =>
          assert validation.None?;
          assert |s.errors| != 0 by {
            assert k in s.errors.Keys;
          }
          assert Submitted(s, validation, outcome).request.None?;
        case Type(f, text) =>
          assert f.Key() != k;
      }
      assert k in next.errors;
      assert ValidationPasses(events[1..]) by {
        forall i | 0 <= i < |events[1..]| && events[1..][i].Press? ensures events[1..][i].validation.None? {
          assert events[1..][i] == events[i + 1];
        }
      }
      ForeignErrorBlocks(next, events[1..], k);
    }
  }
}
