/** Types shared by every component of the model. */
module Common {

  datatype Option<+T> = None | Some(value: T)

  /** An outcome: a value, or the error the operation reports. Usable with `:-`. */
  datatype Result<+T, +E> = Ok(value: T) | Err(error: E) {
    predicate IsFailure() {
      Err?
    }

    function PropagateFailure<U>(): Result<U, E>
      requires Err?
    {
      Err(error)
    }

    function Extract(): T
      requires Ok?
    {
      value
    }
  }

  /**
   A digest field. `Sha(v)` stands for the SHA-256 of the canonical form of `v`, so it is
   injective by construction. A field received from outside may also hold any other text.
   */
  datatype Digest<+T> = Sha(of: T) | Text(text: string)

  /** A signed document. Signing is symbolic: the signature names its key and the body it was made over. */
  datatype Signed<+T> = Signed(body: T, signer: string, signedBody: T)

  predicate SignedBy<T(==)>(document: Signed<T>, key: string) {
    document.signer == key && document.signedBody == document.body
  }

  datatype ExtensionClass = OptionalIgnorable | OptionalNegotiable | RequiredUnderstood | RequiredSecurityCritical

  /** An extension a document relies on, and how strictly. */
  datatype Extension = Extension(id: string, level: ExtensionClass)

  /** A required extension nobody here supports. */
  predicate MustUnderstand(e: Extension, supported: set<string>) {
    e.id !in supported && (e.level.RequiredUnderstood? || e.level.RequiredSecurityCritical?)
  }

  /** The first extension that must be understood and is not. */
  function FirstUnsupported(extensions: seq<Extension>, supported: set<string>): Option<string> {
    if extensions == [] then None
    else if MustUnderstand(extensions[0], supported) then Some(extensions[0].id)
    else FirstUnsupported(extensions[1..], supported)
  }

  lemma {:induction false} AllSupportedIff(extensions: seq<Extension>, supported: set<string>)
    ensures FirstUnsupported(extensions, supported).None?
            <==> forall e :: e in extensions ==> !MustUnderstand(e, supported)
    decreases |extensions|
  {
    if extensions == [] {
    } else {
      AllSupportedIff(extensions[1..], supported);
      assert extensions == [extensions[0]] + extensions[1..];
    }
  }

  /** The first extension that must be understood and is not is the one reported. */
  lemma {:induction false} FirstUnsupportedIs(extensions: seq<Extension>, supported: set<string>, k: nat)
    requires k < |extensions| && extensions[k].id !in supported
    requires extensions[k].level in {RequiredUnderstood, RequiredSecurityCritical}
    requires forall j :: 0 <= j < k ==>
               extensions[j].id in supported || extensions[j].level in {OptionalIgnorable, OptionalNegotiable}
    ensures FirstUnsupported(extensions, supported) == Some(extensions[k].id)
    decreases k
  {
    if k == 0 {
    } else {
      assert forall j :: 0 <= j < |extensions[1..]| ==> extensions[1..][j] == extensions[j + 1];
      FirstUnsupportedIs(extensions[1..], supported, k - 1);
    }
  }

  /** What an observation of a target says about its state. */
  datatype Convergence = Converged | PartiallyConverged | Failed

  /** Characters Unicode counts as white space. */
  predicate WhiteSpace(c: char) {
    || '\t' <= c <= '\r' || c == ' ' || c == '\U{85}' || c == '\U{A0}' || c == '\U{1680}'
    || '\U{2000}' <= c <= '\U{200A}' || c == '\U{2028}' || c == '\U{2029}' || c == '\U{202F}'
    || c == '\U{205F}' || c == '\U{3000}'
  }

  /** Nothing left when trimmed. */
  predicate Blank(s: string) {
    forall c :: c in s ==> WhiteSpace(c)
  }

  lemma {:induction false} SubsetIsNoLarger<T>(a: set<T>, b: set<T>)
    requires a <= b
    ensures |a| <= |b|
    ensures |a| == |b| ==> a == b
  {
    assert b == a + (b - a);
    assert |b| == |a| + |b - a|;
  }

  predicate NoRepeat<T(==)>(s: seq<T>) {
    forall i, j :: 0 <= i < j < |s| ==> s[i] != s[j]
  }

  /** Strings in code-point order, the order of sorted maps and of `<` on text. */
  predicate Before(a: string, b: string) {
    b != [] && (a == [] || a[0] < b[0] || (a[0] == b[0] && Before(a[1..], b[1..])))
  }

  lemma {:induction false} BeforeIsStrict(a: string)
    ensures !Before(a, a)
  {
    if a == [] {
    } else {
      BeforeIsStrict(a[1..]);
    }
  }

  lemma {:induction false} BeforeIsTransitive(a: string, b: string, c: string)
    requires Before(a, b) && Before(b, c)
    ensures Before(a, c)
  {
    if a != [] && a[0] == b[0] && b[0] == c[0] {
      BeforeIsTransitive(a[1..], b[1..], c[1..]);
    }
  }

  lemma {:induction false} BeforeIsTotal(a: string, b: string)
    ensures a == b || Before(a, b) || Before(b, a)
  {
    if a != [] && b != [] && a[0] == b[0] {
      BeforeIsTotal(a[1..], b[1..]);
      assert a == [a[0]] + a[1..] && b == [b[0]] + b[1..];
    }
  }
}
