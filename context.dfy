// SnapshotContext: what the middleware pipeline passes from stage to stage —
// the test name, the actual value, and an expected value that stays unknown
// until some stage sets it.

module Context {
  import opened Wrappers
  import opened HostValues
  import opened Messages

  /** The context's observable state; `expected` means nothing while `expectedKnown` is false. */
  datatype ContextState = ContextState(testName: Option<string>, actual: Option<Host>, expected: Option<Host>, expectedKnown: bool)

  /** The Expected getter: the value once it has been set, an InvalidOperationException before. */
  function ExpectedOf(s: ContextState): (r: Result<Option<Host>>)
    ensures r.Ok? <==> s.expectedKnown
    ensures !s.expectedKnown ==> r == Err(ExpectedUnknown)
  {
    if s.expectedKnown then Ok(s.expected) else Err(ExpectedUnknown)
  }

  /** The Expected setter: the value is stored and known; nothing else changes. */
  function WithExpected(s: ContextState, value: Option<Host>): (r: ContextState)
    ensures ExpectedOf(r) == Ok(value)
    ensures r.testName == s.testName && r.actual == s.actual
  {
    s.(expected := value, expectedKnown := true)
  }

  /** Once known, the expected value stays known whatever is set next, and reads back as the last value set. */
  lemma ExpectedNeverReverts(s: ContextState, a: Option<Host>, b: Option<Host>)
    ensures WithExpected(WithExpected(s, a), b).expectedKnown
    ensures ExpectedOf(WithExpected(WithExpected(s, a), b)) == Ok(b)
  {
  }

  class SnapshotContext {
    var testName: Option<string>
    var actual: Option<Host>
    var expectedKnown: bool
    var expected: Option<Host>
    /** Where Message sends its text: null for the base class, whose Message does nothing. */
    const writer: MessageLog?

    /** A context for a test: nothing is expected yet. */
    constructor (testName: Option<string>, writer: MessageLog?)
      ensures State() == ContextState(testName, None, None, false)
      ensures this.writer == writer
    {
      this.testName := testName;
      actual := None;
      expectedKnown := false;
      expected := None;
      this.writer := writer;
    }

    function State(): ContextState
      reads this
    {
      ContextState(testName, actual, expected, expectedKnown)
    }

    /** Reading Expected. */
    function Expected(): (r: Result<Option<Host>>)
      reads this
      ensures r == ExpectedOf(State())
    {
      if expectedKnown then Ok(expected) else Err(ExpectedUnknown)
    }

    /** Setting Expected. */
    method SetExpected(value: Option<Host>)
      modifies this
      ensures State() == WithExpected(old(State()), value)
    {
      expected := value;
      expectedKnown := true;
    }

    /** Setting Actual, a public field. */
    method SetActual(value: Option<Host>)
      modifies this
      ensures State() == old(State()).(actual := value)
    {
      actual := value;
    }

    /** Message: passed to the writer when there is one, otherwise dropped. */
    method Message(message: Notice)
      modifies writer
      ensures writer != null ==> writer.lines == Emit(old(writer.lines), true, message)
    {
      Messages.Message(writer, message);
    }
  }
}
