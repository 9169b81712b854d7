/**
 * The access gate of the admin panel (js/auth.js): the signed-in
 * administrator, their access level, the session record kept in the
 * browser's local storage under `adminSession`, and the lowercase-hex
 * rendering of the password digest.
 *
 * The store is passed in as the `administradores` rows, the clock as `now`
 * (milliseconds), and the digest as a partial function: `None` stands for
 * the digest call rejecting, which the source reports as a login error.
 */
module Auth {
  import opened Schema

  /** One element of the `Uint8Array` view of the digest. */
  type byte = x: int | 0 <= x < 256

  /** The JSON stored under `adminSession`: {usuario, nivel, timestamp}. */
  datatype Session = Session(usuario: string, nivel: int, timestamp: int)

  /** 24 hours, in milliseconds. */
  const SessionLifetimeMs: int := 24 * 60 * 60 * 1000

  const MsgLoginFailed: string := "Usuario o contraseña incorrectos"
  const MsgLoginError: string := "Error al iniciar sesión"

  // ---------------------------------------------------------------------
  // Hex rendering of the digest: b.toString(16).padStart(2, '0'), joined.
  // ---------------------------------------------------------------------

  /** A lowercase hexadecimal digit. */
  predicate IsHexDigit(c: char)
  {
    '0' <= c <= '9' || 'a' <= c <= 'f'
  }

  function HexDigit(d: int): (c: char)
    requires 0 <= d < 16
    ensures IsHexDigit(c)
  {
    if d < 10 then ('0' as int + d) as char else ('a' as int + d - 10) as char
  }

  /** `Number.prototype.toString(16)` for a natural number: lowercase, no leading zeros. */
  function ToRadix16(n: nat): (s: string)
    ensures |s| >= 1
  {
    if n < 16 then [HexDigit(n)] else ToRadix16(n / 16) + [HexDigit(n % 16)]
  }

  /** `String.prototype.padStart(len, c)` for a one-character pad. */
  function PadStart(s: string, len: nat, c: char): (r: string)
    ensures |r| == if |s| >= len then |s| else len
  {
    if |s| >= len then s else seq(len - |s|, _ => c) + s
  }

  /** One byte as the source renders it; always exactly two digits, high nibble first. */
  function HexByte(b: byte): (h: string)
    ensures h == [HexDigit(b / 16), HexDigit(b % 16)]
  {
    if b < 16 then
      assert ToRadix16(b) == [HexDigit(b)];
      assert HexDigit(b / 16) == '0';
      PadStart(ToRadix16(b), 2, '0')
    else
      assert ToRadix16(b / 16) == [HexDigit(b / 16)];
      PadStart(ToRadix16(b), 2, '0')
  }

  /** `hashArray.map(b => b.toString(16).padStart(2, '0')).join('')`. */
  function Hex(bytes: seq<byte>): (h: string)
    ensures |h| == 2 * |bytes|
    ensures forall i :: 0 <= i < |h| ==> IsHexDigit(h[i])
  {
    if |bytes| == 0 then "" else HexByte(bytes[0]) + Hex(bytes[1..])
  }

  function DigitValue(c: char): (d: int)
    requires IsHexDigit(c)
    ensures 0 <= d < 16 && HexDigit(d) == c
  {
    if '0' <= c <= '9' then c as int - '0' as int else c as int - 'a' as int + 10
  }

  /** Reads a lowercase hex string back into bytes. */
  function Unhex(h: string): (bytes: seq<byte>)
    requires |h| % 2 == 0
    requires forall i :: 0 <= i < |h| ==> IsHexDigit(h[i])
    ensures |bytes| == |h| / 2
  {
    if |h| == 0 then [] else [DigitValue(h[0]) * 16 + DigitValue(h[1])] + Unhex(h[2..])
  }

  /** The rendering loses nothing: the bytes can be read back. */
  lemma {:induction false} HexRoundTrip(bytes: seq<byte>)
    ensures Unhex(Hex(bytes)) == bytes
  {
    if |bytes| > 0 {
      var h := Hex(bytes);
      var b := bytes[0];
      assert h[0] == HexDigit(b / 16) && h[1] == HexDigit(b % 16);
      assert h[2..] == Hex(bytes[1..]);
      assert DigitValue(h[0]) * 16 + DigitValue(h[1]) == b;
      HexRoundTrip(bytes[1..]);
    }
  }

  /** Distinct digests give distinct stored hashes. */
  lemma HexInjective(a: seq<byte>, b: seq<byte>)
    requires Hex(a) == Hex(b)
    ensures a == b
  {
    HexRoundTrip(a);
    HexRoundTrip(b);
  }

  // ---------------------------------------------------------------------
  // Looking up the administrator: .eq('usuario', u).eq('activo', true).single()
  // ---------------------------------------------------------------------

  function ActiveNamed(usuario: string): Admin -> bool
  {
    (a: Admin) => a.usuario == usuario && a.activo
  }

  /** `.single()` yields a row only when exactly one row matches; otherwise it is an error. */
  function FindActive(admins: seq<Admin>, usuario: string): (r: Option<Admin>)
    ensures r.Some? <==> CountIf(admins, ActiveNamed(usuario)) == 1
    ensures r.Some? ==> r.value in admins && r.value.usuario == usuario && r.value.activo
  {
    Single(admins, ActiveNamed(usuario))
  }

  /** The name shown on a successful login: `nombre_completo || usuario`. */
  function DisplayName(a: Admin): string
  {
    if a.nombreCompleto != "" then a.nombreCompleto else a.usuario
  }

  /** The saved session is still usable: less than 24 hours old (strictly). */
  predicate SessionFresh(s: Session, now: int)
  {
    now - s.timestamp < SessionLifetimeMs
  }

  class AuthManager {
    var currentUser: Option<Admin>
    var userLevel: int
    /** The `adminSession` entry of local storage. */
    var storedSession: Option<Session>

    /** A fresh manager starts anonymous; local storage keeps whatever an earlier page left. */
    constructor (saved: Option<Session>)
      ensures currentUser == None && userLevel == 0 && storedSession == saved
    {
      currentUser := None;
      userLevel := 0;
      storedSession := saved;
    }

    /** `hasAccess(requiredLevel)`. */
    function HasAccess(requiredLevel: int): (ok: bool)
      reads this
      ensures ok <==> userLevel >= requiredLevel
    {
      userLevel >= requiredLevel
    }

    /**
     * `login(usuario, password)`: a missing or inactive account and a wrong
     * password fail alike, with one message and no change of state.
     */
    method Login(usuario: string, password: string, admins: seq<Admin>,
                 digest: string -> Option<seq<byte>>, now: int)
      returns (ok: bool, message: string)
      modifies this
      ensures FindActive(admins, usuario).None? ==>
        !ok && message == MsgLoginFailed && unchanged(this)
      ensures FindActive(admins, usuario).Some? && digest(password).None? ==>
        !ok && message == MsgLoginError && unchanged(this)
      ensures FindActive(admins, usuario).Some? && digest(password).Some? &&
              Hex(digest(password).value) != FindActive(admins, usuario).value.passwordHash ==>
        !ok && message == MsgLoginFailed && unchanged(this)
      ensures ok <==> FindActive(admins, usuario).Some? && digest(password).Some? &&
                      Hex(digest(password).value) == FindActive(admins, usuario).value.passwordHash
      ensures ok ==>
        var a := FindActive(admins, usuario).value;
        && currentUser == Some(a)
        && userLevel == a.nivelAcceso
        && storedSession == Some(Session(a.usuario, a.nivelAcceso, now))
        && message == "Bienvenido, " + DisplayName(a)
    {
      var found := FindActive(admins, usuario);
      if found.None? {
        return false, MsgLoginFailed;
      }
      var admin := found.value;
      var hashBytes := digest(password);
      if hashBytes.None? {
        return false, MsgLoginError;
      }
      if Hex(hashBytes.value) != admin.passwordHash {
        return false, MsgLoginFailed;
      }
      currentUser := Some(admin);
      userLevel := admin.nivelAcceso;
      storedSession := Some(Session(admin.usuario, admin.nivelAcceso, now));
      return true, "Bienvenido, " + DisplayName(admin);
    }

    /** `logout()`: back to the anonymous identity, session removed. */
    method Logout()
      modifies this
      ensures currentUser == None && userLevel == 0 && storedSession == None
    {
      currentUser := None;
      userLevel := 0;
      storedSession := None;
    }

    /** `validateAdminUser(email)`: adopt the active account, or log out when there is none. */
    method ValidateAdminUser(usuario: string, admins: seq<Admin>)
      modifies this
      ensures FindActive(admins, usuario).None? ==>
        currentUser == None && userLevel == 0 && storedSession == None
      ensures FindActive(admins, usuario).Some? ==>
        currentUser == FindActive(admins, usuario) &&
        userLevel == FindActive(admins, usuario).value.nivelAcceso &&
        storedSession == old(storedSession)
    {
      var found := FindActive(admins, usuario);
      if found.None? {
        Logout();
        return;
      }
      currentUser := found;
      userLevel := found.value.nivelAcceso;
    }

    /**
     * The saved-session check run at start-up: a session younger than 24
     * hours is revalidated against the store, an older one is removed.
     */
    method RestoreSession(now: int, admins: seq<Admin>)
      modifies this
      ensures old(storedSession).None? ==> unchanged(this)
      ensures old(storedSession).Some? && !SessionFresh(old(storedSession).value, now) ==>
        storedSession == None && currentUser == old(currentUser) && userLevel == old(userLevel)
      ensures old(storedSession).Some? && SessionFresh(old(storedSession).value, now) ==>
        var found := FindActive(admins, old(storedSession).value.usuario);
        (found.None? ==> currentUser == None && userLevel == 0 && storedSession == None) &&
        (found.Some? ==> currentUser == found && userLevel == found.value.nivelAcceso &&
                         storedSession == old(storedSession))
    {
      if storedSession.Some? {
        var s := storedSession.value;
        if SessionFresh(s, now) {
          ValidateAdminUser(s.usuario, admins);
        } else {
          storedSession := None;
        }
      }
    }
  }
}
