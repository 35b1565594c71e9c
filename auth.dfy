/** The authentication composable (`useAuth`): an anonymous or signed-in `user`, with the
    `error` and `isLoading` fields, changed by `login`, `register` and `logout`.

    SHA-256 over the UTF-8 bytes of the password is a foreign call; a session receives it as a
    function and the model states only the hexadecimal encoding of its digest. */
module Auth {
  import opened Wrappers
  import opened Database

  type Byte = b: int | 0 <= b < 256

  /** The base-16 digit for `d`, lower case as `Number.prototype.toString(16)` writes it. */
  function HexDigit(d: nat): (c: char)
    requires d < 16
  {
    if d < 10 then ('0' as int + d) as char else ('a' as int + d - 10) as char
  }

  /** The value of a lower-case base-16 digit, if `c` is one. */
  function DigitValue(c: char): (v: Option<nat>)
    ensures v.Some? ==> v.value < 16 && HexDigit(v.value) == c
  {
    if '0' <= c <= '9' then Some(c as int - '0' as int)
    else if 'a' <= c <= 'f' then Some(c as int - 'a' as int + 10)
    else None
  }

  lemma DigitValueOfHexDigit(d: nat)
    requires d < 16
    ensures DigitValue(HexDigit(d)) == Some(d)
  {
  }

  /** `n.toString(16)`: base-16 digits without leading zeros. */
  function ToHexString(n: nat): (s: string)
    ensures 1 <= |s|
    ensures n < 16 ==> s == [HexDigit(n)]
    ensures 16 <= n < 256 ==> s == [HexDigit(n / 16), HexDigit(n % 16)]
  {
    if n < 16 then [HexDigit(n)] else ToHexString(n / 16) + [HexDigit(n % 16)]
  }

  /** `s.padStart(width, fill)` with a one-character fill. */
  function PadStart(s: string, width: nat, fill: char): (r: string)
    ensures |r| == if |s| < width then width else |s|
    ensures r[|r| - |s|..] == s
    ensures forall i :: 0 <= i < |r| - |s| ==> r[i] == fill
  {
    if |s| >= width then s else seq(width - |s|, _ => fill) + s
  }

  /** One byte as `b.toString(16).padStart(2, '0')`: always two digits, high nibble first. */
  function ByteToHex(b: Byte): (s: string)
    ensures s == [HexDigit(b / 16), HexDigit(b % 16)]
  {
    PadStart(ToHexString(b), 2, '0')
  }

  /** The digest as `Array.from(bytes).map(ByteToHex).join('')`. */
  function HexEncode(bytes: seq<Byte>): (s: string)
    ensures |s| == 2 * |bytes|
    ensures forall i :: 0 <= i < |s| ==> DigitValue(s[i]).Some?
  {
    if bytes == [] then ""
    else
      var head, rest := ByteToHex(bytes[0]), HexEncode(bytes[1..]);
      ByteToHexDigits(bytes[0]);
      assert forall i :: 0 <= i < |head + rest| ==>
        (head + rest)[i] == if i < 2 then head[i] else rest[i - 2];
      head + rest
  }

  /** Both characters `ByteToHex` writes are digits. */
  lemma ByteToHexDigits(b: Byte)
    ensures |ByteToHex(b)| == 2
    ensures DigitValue(ByteToHex(b)[0]).Some? && DigitValue(ByteToHex(b)[1]).Some?
  {
    DigitValueOfHexDigit(b / 16);
    DigitValueOfHexDigit(b % 16);
  }

  /** Reads back what `HexEncode` writes; `None` on an odd length or a character that is not a
      lower-case hexadecimal digit. */
  function HexDecode(s: string): (r: Option<seq<Byte>>)
  {
    if s == [] then Some([])
    else if |s| == 1 then None
    else
      var hi, lo := DigitValue(s[0]), DigitValue(s[1]);
      if hi.None? || lo.None? then None
      else
        match HexDecode(s[2..])
        case None => None
        case Some(rest) => Some([hi.value * 16 + lo.value] + rest)
  }

  /** Decoding reads one encoded byte off the front. */
  lemma DecodeByte(b: Byte, t: string, rest: seq<Byte>)
    requires HexDecode(t) == Some(rest)
    ensures HexDecode(ByteToHex(b) + t) == Some([b] + rest)
  {
    var s := ByteToHex(b) + t;
    assert s[2..] == t;
    DigitValueOfHexDigit(b / 16);
    DigitValueOfHexDigit(b % 16);
    assert DigitValue(s[0]) == Some(b / 16) && DigitValue(s[1]) == Some(b % 16);
    assert (b / 16) * 16 + b % 16 == b;
  }

  /** Decoding inverts encoding. */
  lemma {:induction false} HexRoundTrip(bytes: seq<Byte>)
    ensures HexDecode(HexEncode(bytes)) == Some(bytes)
  {
    if bytes != [] {
      HexRoundTrip(bytes[1..]);
      DecodeByte(bytes[0], HexEncode(bytes[1..]), bytes[1..]);
      assert [bytes[0]] + bytes[1..] == bytes;
    }
  }

  /** Distinct digests give distinct hexadecimal strings. */
  lemma HexEncodeInjective(a: seq<Byte>, b: seq<Byte>)
    requires HexEncode(a) == HexEncode(b)
    ensures a == b
  {
    HexRoundTrip(a);
    HexRoundTrip(b);
  }

  /** `s.length` in JavaScript: UTF-16 code units, two for a character outside the Basic
      Multilingual Plane. */
  function JsLength(s: string): (n: nat)
    ensures |s| <= n <= 2 * |s|
    ensures (forall i :: 0 <= i < |s| ==> s[i] as int < 0x10000) ==> n == |s|
    ensures (forall i :: 0 <= i < |s| ==> s[i] as int >= 0x10000) ==> n == 2 * |s|
  {
    if s == [] then 0 else (if s[0] as int >= 0x10000 then 2 else 1) + JsLength(s[1..])
  }

  /** The UTF-16 length of a concatenation is the sum of the lengths. */
  lemma {:induction false} JsLengthAppend(a: string, b: string)
    ensures JsLength(a + b) == JsLength(a) + JsLength(b)
  {
    if a == [] {
      assert a + b == b;
    } else {
      assert (a + b)[0] == a[0] && (a + b)[1..] == a[1..] + b;
      JsLengthAppend(a[1..], b);
    }
  }

  /** A single character counts one code unit inside the Basic Multilingual Plane, two outside. */
  lemma JsLengthOfChar(c: char)
    ensures JsLength([c]) == if c as int < 0x10000 then 1 else 2
  {
    assert [c][1..] == [];
  }

  const MinPasswordLength: nat := 6

  /** The session's view of a user: the row without its digest. */
  datatype AuthUser = AuthUser(id: Id, name: string, email: string, createdAt: nat)

  function WithoutPassword(row: UserRow): AuthUser
  {
    AuthUser(row.id, row.name, row.email, row.createdAt)
  }

  datatype AuthError =
    | PasswordsDiffer
    | PasswordTooShort
    | EmailInUse
    | UserNotFound
    | WrongPassword
    | Thrown(message: string)   // an exception caught by the operation, with its message

  /** The text stored in `error`: a fixed message per rejection, and a caught exception's own
      message. */
  function Message(e: AuthError): (m: string)
    ensures e.Thrown? ==> m == e.message
    ensures !e.Thrown? ==> m != []
  {
    match e
    case PasswordsDiffer => "Las contraseñas no coinciden"
    case PasswordTooShort => "La contraseña debe tener al menos 6 caracteres"
    case EmailInUse => "Ya existe un usuario con este email"
    case UserNotFound => "Usuario no encontrado"
    case WrongPassword => "Contraseña incorrecta"
    case Thrown(m) => m
  }

  /** The five rejections are told apart by their texts. */
  lemma MessagesDistinct(a: AuthError, b: AuthError)
    requires !a.Thrown? && !b.Thrown? && a != b
    ensures Message(a) != Message(b)
  {
  }

  /** The message of the TypeError raised by `undefined.substring(...)` (V8's wording). */
  const UndefinedPasswordMessage: string := "Cannot read properties of undefined (reading 'substring')"

  /** `register`'s validations, in the source's order: confirmation, length, existing email. */
  function RegisterCheck(password: string, confirmPassword: string, existing: Option<UserRow>): (e: Option<AuthError>)
    ensures password != confirmPassword ==> e == Some(PasswordsDiffer)
    ensures password == confirmPassword && JsLength(password) < MinPasswordLength ==> e == Some(PasswordTooShort)
    ensures password == confirmPassword && JsLength(password) >= MinPasswordLength && existing.Some? ==> e == Some(EmailInUse)
    ensures e.None? <==> password == confirmPassword && JsLength(password) >= MinPasswordLength && existing.None?
  {
    if password != confirmPassword then Some(PasswordsDiffer)
    else if JsLength(password) < MinPasswordLength then Some(PasswordTooShort)
    else if existing.Some? then Some(EmailInUse)
    else None
  }

  /** `login`'s decision from the row found by email and the digest of the typed password. */
  function LoginOutcome(found: Option<UserRow>, hashed: string): (r: Result<AuthUser, AuthError>)
    ensures found.None? ==> r == Err(UserNotFound)
    ensures r.Ok? <==> found.Some? && found.value.password == Some(hashed)
    ensures r.Ok? ==> r.value == AuthUser(found.value.id, found.value.name, found.value.email, found.value.createdAt)
    ensures found.Some? && found.value.password.Some? && found.value.password != Some(hashed) ==> r == Err(WrongPassword)
  {
    match found
    case None => Err(UserNotFound)
    case Some(row) =>
      match row.password
      case None => Err(Thrown(UndefinedPasswordMessage))
      case Some(digest) => if digest != hashed then Err(WrongPassword) else Ok(WithoutPassword(row))
  }

  /** As written, `createUser` stores no digest, so `login` fails for a freshly registered user
      whatever password is typed: it reads the missing `password` and throws. */
  lemma AsWrittenRegisteredUserCannotLogIn(users: seq<UserRow>, id: Id, name: string, email: string, now: nat, hashed: string)
    requires !EmailTaken(users, email)
    ensures LoginOutcome(UserByEmail(users + [InsertedRowAsWritten(id, name, email, now)], email), hashed)
      == Err(Thrown(UndefinedPasswordMessage))
  {
    AppendedUserFound(users, InsertedRowAsWritten(id, name, email, now));
  }

  /** With the digest stored, a registered user signs in with the same password. */
  lemma RegisteredUserCanLogIn(users: seq<UserRow>, id: Id, name: string, email: string, now: nat, hashed: string)
    requires !EmailTaken(users, email)
    ensures LoginOutcome(UserByEmail(users + [UserRow(id, name, email, now, Some(hashed))], email), hashed)
      == Ok(AuthUser(id, name, email, now))
  {
    AppendedUserFound(users, UserRow(id, name, email, now, Some(hashed)));
  }

  /** The state of one `useAuth` instance. */
  class Session {
    const db: Tables
    const sha256: string -> seq<Byte>
    var user: Option<AuthUser>
    var isLoading: bool
    var error: Option<string>

    /** A session that starts anonymous; restoring a saved user from local storage is not modelled. */
    constructor (db: Tables, sha256: string -> seq<Byte>)
      ensures this.db == db && this.sha256 == sha256
      ensures user == None && !isLoading && error == None
    {
      this.db, this.sha256 := db, sha256;
      user, isLoading, error := None, false, None;
    }

    /** `hashPassword`: the digest in lower-case hexadecimal, two characters per byte. */
    function HashPassword(password: string): (h: string)
      ensures |h| == 2 * |sha256(password)|
      ensures HexDecode(h) == Some(sha256(password))
    {
      HexRoundTrip(sha256(password));
      HexEncode(sha256(password))
    }

    /** `!!user.value`. */
    function IsAuthenticated(): (b: bool)
      reads this
      ensures b <==> user.Some?
    {
      user.Some?
    }

    method Login(email: string, password: string) returns (ok: bool)
      modifies this
      ensures var outcome := LoginOutcome(UserByEmail(db.users, email), HashPassword(password));
        && ok == outcome.Ok?
        && (ok ==> user == Some(outcome.value) && error == None)
        && (!ok ==> user == old(user) && error == Some(Message(outcome.error)))
      ensures !isLoading
    {
      isLoading := true;
      error := None;
      var found := db.GetUserByEmail(email);
      if found.None? {
        error := Some(Message(UserNotFound));
        ok := false;
      } else if found.value.password.None? {
        // the digest is dereferenced before the comparison and the TypeError is caught
        error := Some(Message(Thrown(UndefinedPasswordMessage)));
        ok := false;
      } else if found.value.password.value != HashPassword(password) {
        error := Some(Message(WrongPassword));
        ok := false;
      } else {
        user := Some(WithoutPassword(found.value));
        ok := true;
      }
      isLoading := false;
    }

    method Register(name: string, email: string, password: string, confirmPassword: string, now: nat) returns (ok: bool)
      requires db.Valid() && db.clock <= now
      modifies this, db
      ensures db.Valid()
      ensures var check := RegisterCheck(password, confirmPassword, UserByEmail(old(db.users), email));
        && ok == check.None?
        && (!ok ==> user == old(user) && error == Some(Message(check.value)) && db.users == old(db.users))
        && (ok ==> user == Some(AuthUser(old(db.nextId), name, email, now)) && error == None &&
                   db.users == old(db.users) + [UserRow(old(db.nextId), name, email, now, Some(HashPassword(password)))])
      ensures db.userShows == old(db.userShows)
      ensures !isLoading
    {
      isLoading := true;
      error := None;
      if password != confirmPassword {
        error := Some(Message(PasswordsDiffer));
        ok := false;
      } else if JsLength(password) < MinPasswordLength {
        error := Some(Message(PasswordTooShort));
        ok := false;
      } else {
        var existing := db.GetUserByEmail(email);
        if existing.Some? {
          error := Some(Message(EmailInUse));
          ok := false;
        } else {
          var created := db.CreateUser(name, email, HashPassword(password), now);
          match created {
            case Ok(newUser) =>
              user := Some(AuthUser(newUser.id, newUser.name, newUser.email, newUser.createdAt));
              ok := true;
            case Err(message) =>
              error := Some(Message(Thrown(message)));
              ok := false;
          }
        }
      }
      isLoading := false;
    }

    method Logout()
      modifies this
      ensures user == None
      ensures error == old(error) && isLoading == old(isLoading)
    {
      user := None;
    }

    method ClearError()
      modifies this
      ensures error == None
      ensures user == old(user) && isLoading == old(isLoading)
    {
      error := None;
    }
  }

  /** Registering and then signing in with the same password succeeds. */
  method RegisterThenLogIn(session: Session, name: string, email: string, password: string, now: nat)
    requires session.db.Valid() && session.db.clock <= now
    requires !EmailTaken(session.db.users, email)
    requires JsLength(password) >= MinPasswordLength
    modifies session, session.db
    ensures session.IsAuthenticated()
  {
    var registered := session.Register(name, email, password, password, now);
    assert registered;
    RegisteredUserCanLogIn(old(session.db.users), old(session.db.nextId), name, email, now, session.HashPassword(password));
    var loggedIn := session.Login(email, password);
    assert loggedIn;
  }
}
