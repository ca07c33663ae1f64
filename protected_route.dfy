/** The route guard of frontend/src/wrapper/ProtectedRoute.tsx: the raw
    `role` entry of the signed-in user's metadata is normalised to numbers
    and access is granted when one of them is among the allowed roles. */
module ProtectedRoute {
  import opened Strings
  import Seqs

  /** A JavaScript value that can stand in the role metadata. */
  datatype Scalar = Null | Str(s: string) | Num(n: int) | Bool(b: bool)

  /** `user?.user_metadata?.role`: `undefined` (no user, no metadata or no
      role entry), a single value, or an array of values. */
  datatype RoleMeta = Undefined | One(v: Scalar) | Many(vs: seq<Scalar>)

  /** The result of `Number(x)`, restricted to integers and NaN. */
  datatype Number = NaN | Int(i: int)

  predicate AllDigits(d: string) {
    forall k :: 0 <= k < |d| ==> '0' <= d[k] <= '9'
  }

  /** The value of a non-empty string of decimal digits. */
  function DecimalValue(d: string): (n: nat)
    requires AllDigits(d)
    ensures |d| == 1 ==> n == d[0] as int - '0' as int
  {
    if d == [] then 0
    else
      DecimalValue(d[..|d| - 1]) * 10 + (d[|d| - 1] as int - '0' as int)
  }

  /** An unsigned decimal numeral; anything else is NaN. */
  function DigitsToNumber(d: string): Number {
    if d != [] && AllDigits(d) then Int(DecimalValue(d)) else NaN
  }

  /** `Number(s)` for a string: surrounding whitespace is ignored, the
      empty string is 0, and an optional sign may precede the digits. */
  function StringToNumber(s: string): (r: Number)
    ensures Trim(s) == [] ==> r == Int(0)
    ensures Trim(s) != [] && AllDigits(Trim(s)) ==> r == Int(DecimalValue(Trim(s)))
    ensures |Trim(s)| >= 2 && Trim(s)[0] == '-' && AllDigits(Trim(s)[1..]) ==>
      r == Int(0 - DecimalValue(Trim(s)[1..]) as int)
    ensures |Trim(s)| >= 2 && Trim(s)[0] == '+' && AllDigits(Trim(s)[1..]) ==>
      r == Int(DecimalValue(Trim(s)[1..]))
    ensures Trim(s) != [] && Trim(s)[0] != '-' && Trim(s)[0] != '+' && !AllDigits(Trim(s)) ==> r == NaN
    ensures Trim(s) in ["-", "+"] ==> r == NaN
  {
    var t := Trim(s);
    if t == [] then Int(0)
    else if t[0] == '-' then
      match DigitsToNumber(t[1..])
      case NaN => NaN
      case Int(n) => Int(-n)
    else if t[0] == '+' then DigitsToNumber(t[1..])
    else DigitsToNumber(t)
  }

  /** `Number(v)`. `Number(null)` is 0 and `Number(true)` is 1. */
  function ToNumber(v: Scalar): Number {
    match v
    case Null => Int(0)
    case Str(s) => StringToNumber(s)
    case Num(n) => Int(n)
    case Bool(b) => if b then Int(1) else Int(0)
  }

  /** Line 14-16: an array is mapped element by element and keeps its NaNs;
      anything else becomes a one-element list from which NaN is filtered
      out. `Number(undefined)` is NaN, so missing metadata gives `[]`. */
  function NormaliseRoles(meta: RoleMeta): (roles: seq<Number>)
    ensures meta.Undefined? ==> roles == []
    ensures meta.One? ==> |roles| <= 1 && (roles == [] <==> ToNumber(meta.v) == NaN)
    ensures meta.One? && roles != [] ==> roles[0] == ToNumber(meta.v)
    ensures meta.Many? ==> |roles| == |meta.vs|
    ensures meta.Many? ==> forall k :: 0 <= k < |roles| ==> roles[k] == ToNumber(meta.vs[k])
  {
    match meta
    case Undefined => []
    case One(v) => if ToNumber(v) == NaN then [] else [ToNumber(v)]
    case Many(vs) => Seqs.Map(ToNumber, vs)
  }

  /** Whether a normalised role is one of the allowed ones; NaN never is. */
  predicate IsAllowed(role: Number, allowed: seq<int>) {
    role.Int? && Seqs.Includes(allowed, role.i)
  }

  /** Line 18: `roles.some(role => allowedRoles.includes(role))`. */
  function HasAccess(roles: seq<Number>, allowed: seq<int>): bool {
    if roles == [] then false
    else IsAllowed(roles[0], allowed) || HasAccess(roles[1..], allowed)
  }

  /** Access is granted exactly when the two role lists intersect. */
  lemma {:induction false} HasAccessMeaning(roles: seq<Number>, allowed: seq<int>)
    ensures HasAccess(roles, allowed) <==>
      exists k :: 0 <= k < |roles| && roles[k].Int? && roles[k].i in allowed
  {
    if roles != [] {
      HasAccessMeaning(roles[1..], allowed);
      assert forall k :: 1 <= k < |roles| ==> roles[k] == roles[1..][k - 1];
    }
  }

  /** Granting is monotone: more roles for the user or more allowed roles
      never turn a grant into a denial. */
  lemma AccessMonotone(roles: seq<Number>, allowed: seq<int>, roles': seq<Number>, allowed': seq<int>)
    requires forall r :: r in roles ==> r in roles'
    requires forall a :: a in allowed ==> a in allowed'
    requires HasAccess(roles, allowed)
    ensures HasAccess(roles', allowed')
  {
    HasAccessMeaning(roles, allowed);
    HasAccessMeaning(roles', allowed');
    var k :| 0 <= k < |roles| && roles[k].Int? && roles[k].i in allowed;
    assert roles[k] in roles;
    var k' :| 0 <= k' < |roles'| && roles'[k'] == roles[k];
  }

  /** A single role string of one digit, such as "1", becomes that number. */
  lemma SingleDigitRole(d: char)
    requires '0' <= d <= '9'
    ensures NormaliseRoles(One(Str([d]))) == [Int(d as int - '0' as int)]
  {
    var s := [d];
    assert s[0] == d;
    TrimUnchanged(s);
    assert AllDigits(s);
    assert DigitsToNumber(s) == Int(d as int - '0' as int);
    assert StringToNumber(s) == Int(d as int - '0' as int);
  }

  /** What the guard renders. */
  datatype View<E> = Children(element: E) | Redirect(to: string, alert: string)

  const DeniedAlert: string := "You do not have permission to access this page. Redirecting ..."

  /** Lines 10-26: the children are returned unchanged on a grant; on a
      denial the user is alerted and sent to "/". */
  function Guard<E>(meta: RoleMeta, allowed: seq<int>, children: E): (v: View<E>)
    ensures v.Children? <==>
      exists k :: 0 <= k < |NormaliseRoles(meta)| && NormaliseRoles(meta)[k].Int? && NormaliseRoles(meta)[k].i in allowed
    ensures v.Children? ==> v.element == children
    ensures v.Redirect? ==> v.to == "/" && v.alert == DeniedAlert
    ensures meta.Undefined? ==> v.Redirect?
  {
    HasAccessMeaning(NormaliseRoles(meta), allowed);
    if HasAccess(NormaliseRoles(meta), allowed) then Children(children)
    else Redirect("/", DeniedAlert)
  }
}
