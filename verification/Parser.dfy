/** Payload parsers and builders (src/utils/Parser.cpp). */
module PayloadParser {
  import opened CommonUtils
  import opened Decimal

  datatype Credentials = Credentials(username: string, password: string)
  datatype Registration = Registration(username: string, password: string, role: u8)
  datatype Chat = Chat(recipient: string, message: string)

  predicate IsNameChar(c: char) {
    'a' <= c <= 'z' || 'A' <= c <= 'Z' || '0' <= c <= '9' || c == '_'
  }

  predicate ValidUsername(username: string) {
    0 < |username| <= 50 && forall i :: 0 <= i < |username| ==> IsNameChar(username[i])
  }

  predicate ValidPassword(password: string) {
    4 <= |password| <= 100
  }

  function ParseLogin(payload: string): Option<Credentials> {
    var parts := Split(payload, '|');
    if |parts| < 2 then None
    else
      var username, password := Trim(parts[0]), Trim(parts[1]);
      if ValidUsername(username) && ValidPassword(password) then Some(Credentials(username, password)) else None
  }

  function ParseRegister(payload: string): Option<Registration> {
    RegistrationOf(Split(payload, '|'))
  }

  function RegistrationOf(parts: seq<string>): Option<Registration> {
    if |parts| < 3 then None
    else
      var username, password := Trim(parts[0]), Trim(parts[1]);
      var role := Stoi(parts[2]);
      if role.Some? && ValidUsername(username) && ValidPassword(password)
      then Some(Registration(username, password, role.value % 0x100)) else None
  }

  function ParseLevel(payload: string): Option<u8> {
    var level := Stoi(Trim(payload));
    if level.Some? && 1 <= level.value <= 3 then Some(level.value) else None
  }

  function ParseChat(payload: string): Option<Chat> {
    var pos := Find(payload, '|', 0);
    if pos == |payload| then None
    else
      var recipient, message := Trim(payload[..pos]), payload[pos + 1..];
      if recipient != "" && message != "" then Some(Chat(recipient, message)) else None
  }

  function CreateLogin(username: string, password: string): string {
    username + ['|'] + password
  }

  function CreateRegister(username: string, password: string, role: u8): string {
    username + ['|'] + password + ['|'] + ToString(role)
  }

  function CreateLevel(level: u8): string {
    ToString(level)
  }

  function CreateChat(recipient: string, message: string): string {
    recipient + ['|'] + message
  }

  function ErrorText(code: u16, description: string): string {
    ToString(code) + "|" + description
  }

  function SuccessText(data: string): string {
    ToString(0) + (if data == "" then "" else "|" + data)
  }

  // ---------------------------------------------------------------- builders against parsers

  /** The first token of a text, with or without a delimiter behind it. */
  lemma FirstToken(x: string, rest: string)
    ensures '|' !in x ==> Split(x + ['|'] + rest, '|') == [x] + Split(rest, '|')
    ensures '|' in x ==> |Split(x + ['|'] + rest, '|')| > 0 && '|' !in Split(x + ['|'] + rest, '|')[0]
  {
    if '|' in x {
      SplitClean(x + ['|'] + rest, '|');
    } else {
      SplitStep(x, '|', rest);
    }
  }

  /** Trimming never hides a bar. */
  lemma TrimKeepsBars(x: string, y: string)
    requires '|' in x && '|' !in y
    ensures Trim(y) != Trim(x)
  {
    assert '|' in Trim(x);
  }

  predicate Acceptable(username: string, password: string) {
    ValidUsername(Trim(username)) && ValidPassword(Trim(password)) && '|' !in password
  }

  lemma AcceptableIsBarFree(username: string, password: string)
    requires Acceptable(username, password)
    ensures '|' !in username && '|' !in password && password != ""
  {
    assert '|' !in Trim(username);
    assert '|' in username ==> '|' in Trim(username);
  }

  /** A login request built by the client is read back as meant for exactly the acceptable credentials. */
  lemma LoginBuilder(username: string, password: string)
    ensures ParseLogin(CreateLogin(username, password)) == Some(Credentials(Trim(username), Trim(password)))
       <==> Acceptable(username, password)
  {
    var parts := Split(CreateLogin(username, password), '|');
    FirstToken(username, password);
    if '|' in username {
      TrimKeepsBars(username, parts[0]);
      if Acceptable(username, password) {
        AcceptableIsBarFree(username, password);
      }
    } else if '|' in password {
      SplitClean(CreateLogin(username, password), '|');
      if |parts| >= 2 {
        TrimKeepsBars(password, parts[1]);
      }
    } else {
      SplitLast(password, '|');
    }
  }

  lemma ThreeTokens(username: string, password: string, last: string)
    requires '|' !in last && last != ""
    ensures var parts := Split(username + ['|'] + password + ['|'] + last, '|');
            if '|' in username then |parts| > 0 && '|' !in parts[0]
            else if '|' in password then |parts| > 1 ==> '|' !in parts[1]
            else parts == [username, password, last]
  {
    var payload := username + ['|'] + password + ['|'] + last;
    assert payload == username + ['|'] + (password + ['|'] + last);
    FirstToken(username, password + ['|'] + last);
    if '|' !in username {
      FirstToken(password, last);
      SplitClean(payload, '|');
      SplitLast(last, '|');
    }
  }

  lemma RegistrationTokens(parts: seq<string>, username: string, password: string, last: string, role: u8)
    requires Stoi(last) == Some(role)
    requires if '|' in username then |parts| > 0 && '|' !in parts[0]
             else if '|' in password then |parts| > 1 ==> '|' !in parts[1]
             else parts == [username, password, last]
    ensures RegistrationOf(parts) == Some(Registration(Trim(username), Trim(password), role))
       <==> Acceptable(username, password)
    ensures '|' !in username && '|' !in password && RegistrationOf(parts).Some? ==> Acceptable(username, password)
  {
    hide Stoi, Trim, ValidUsername;
    if '|' in username {
      TrimKeepsBars(username, parts[0]);
      if Acceptable(username, password) {
        AcceptableIsBarFree(username, password);
      }
    } else if '|' in password && |parts| > 1 {
      TrimKeepsBars(password, parts[1]);
    }
  }

  /** The same for registration requests, with any role; bar-free strings are refused or read as meant. */
  lemma RegisterBuilder(username: string, password: string, role: u8)
    ensures ParseRegister(CreateRegister(username, password, role))
         == Some(Registration(Trim(username), Trim(password), role))
       <==> Acceptable(username, password)
    ensures '|' !in username && '|' !in password && ParseRegister(CreateRegister(username, password, role)).Some?
        ==> Acceptable(username, password)
  {
    var last := ToString(role);
    RoleToken(role);
    ThreeTokens(username, password, last);
    RegistrationTokens(Split(username + ['|'] + password + ['|'] + last, '|'), username, password, last, role);
  }

  lemma RoleToken(role: u8)
    ensures '|' !in ToString(role) && ToString(role) != "" && Stoi(ToString(role)) == Some(role)
  {
    DigitsFree(role, '|');
    StoiDigits(role);
  }

  /** Credentials whose registration request is accepted log in with the request built from the same strings. */
  lemma RegisteredCanLogin(username: string, password: string, role: u8)
    requires '|' !in username && '|' !in password
    requires ParseRegister(CreateRegister(username, password, role)).Some?
    ensures var r := Registration(Trim(username), Trim(password), role);
            ParseRegister(CreateRegister(username, password, role)) == Some(r)
            && ParseLogin(CreateLogin(username, password)) == Some(Credentials(r.username, r.password))
  {
    RegisterBuilder(username, password, role);
    LoginBuilder(username, password);
  }

  lemma LevelBuilder(level: u8)
    ensures ParseLevel(CreateLevel(level)) == if 1 <= level <= 3 then Some(level) else None
  {
    StoiDigits(level);
    DigitsAreDigits(level);
    TrimSurrounded("", Digits(level), "");
    assert "" + Digits(level) + "" == Digits(level);
  }

  lemma ChatBuilder(recipient: string, message: string)
    ensures ParseChat(CreateChat(recipient, message)) == Some(Chat(Trim(recipient), message))
       <==> '|' !in recipient && Trim(recipient) != "" && message != ""
  {
    var payload := CreateChat(recipient, message);
    var pos := Find(payload, '|', 0);
    FindSpec(payload, '|', 0);
    assert payload[|recipient|] == '|';
    assert payload[0..pos] == payload[..pos];
    if '|' in recipient {
      if pos < |payload| {
        TrimKeepsBars(recipient, payload[..pos]);
      }
    } else {
      FindAfter(payload, '|', 0, recipient);
      assert payload[..pos] == recipient && payload[pos + 1..] == message;
    }
  }

  // ---------------------------------------------------------------- what the parsers refuse

  /** A login is read exactly if it has two fields, both valid; further fields are ignored. */
  lemma LoginParsesExactly(payload: string)
    ensures var parts := Split(payload, '|');
            ParseLogin(payload).Some? <==>
              |parts| >= 2 && ValidUsername(Trim(parts[0])) && ValidPassword(Trim(parts[1]))
    ensures var parts := Split(payload, '|');
            ParseLogin(payload).Some? ==> ParseLogin(payload).value == Credentials(Trim(parts[0]), Trim(parts[1]))
  {
    hide Split, Trim;
  }

  /** A registration is read exactly if it has three fields, a number in the third, and valid credentials. */
  lemma RegisterParsesExactly(payload: string)
    ensures var parts := Split(payload, '|');
            ParseRegister(payload).Some? <==>
              |parts| >= 3 && Stoi(parts[2]).Some? && ValidUsername(Trim(parts[0])) && ValidPassword(Trim(parts[1]))
    ensures var parts := Split(payload, '|');
            ParseRegister(payload).Some? ==>
              ParseRegister(payload).value
              == Registration(Trim(parts[0]), Trim(parts[1]), Stoi(parts[2]).value % 256)
    ensures var parts := Split(payload, '|');
            |parts| >= 3 && NoNumber(parts[2]) ==> ParseRegister(payload) == None
  {
    hide Stoi, Split, Trim, NoNumber;
    var parts := Split(payload, '|');
    if |parts| >= 3 && NoNumber(parts[2]) {
      NoNumberRefused(parts[2]);
    }
  }

  /** A level is read exactly from a number between 1 and 3, with any blanks around and anything behind it. */
  lemma LevelParsesExactly(payload: string)
    ensures NoNumber(Trim(payload)) ==> ParseLevel(payload) == None
    ensures Stoi(Trim(payload)).Some? ==>
              ParseLevel(payload)
              == if 1 <= Stoi(Trim(payload)).value <= 3 then Some(Stoi(Trim(payload)).value) else None
  {
    hide Stoi, Trim, NoNumber;
    if NoNumber(Trim(payload)) {
      NoNumberRefused(Trim(payload));
    }
  }

  /** What credentials may be: 1 to 50 ASCII digits, letters and underscores, and a password of 4 to 100 bytes. */
  lemma ValidCredentials(username: string, password: string)
    ensures ValidUsername(username) && ValidPassword(password)
       <==> 1 <= |username| < 51 && 4 <= |password| < 101
            && forall i :: 0 <= i < |username| ==>
                 var n := username[i] as int; 48 <= n < 58 || 65 <= n < 91 || 97 <= n < 123 || n == 95
  {
  }
}
