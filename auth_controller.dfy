/**
 * `AuthController` (AuthController.java): registration against the user
 * table and login. The password encoder, the authentication manager and the
 * token provider are opaque functions given at construction.
 */
module AuthApi {
  import opened Wrappers
  import opened Http
  import opened Users

  const EmailInUse: string := "Error: Email is already in use!"
  const Registered: string := "User registered successfully!"

  class AuthController {
    const userRepository: UserRepository
    /** `passwordEncoder.encode` */
    const encode: string -> string
    /** Whether `authenticationManager.authenticate` accepts an email and password. */
    const authenticate: (string, string) -> bool
    /** `jwtTokenProvider.generateToken` applied to the user details loaded for an email. */
    const generateToken: string -> string

    constructor (userRepository: UserRepository, encode: string -> string,
                 authenticate: (string, string) -> bool, generateToken: string -> string)
      ensures this.userRepository == userRepository && this.encode == encode
      ensures this.authenticate == authenticate && this.generateToken == generateToken
    {
      this.userRepository := userRepository;
      this.encode := encode;
      this.authenticate := authenticate;
      this.generateToken := generateToken;
    }

    /**
     * `registerUser`: a known email is refused with 400 and the table kept;
     * a new one gains exactly one user holding the encoded password.
     */
    method RegisterUser(email: string, password: string) returns (response: ResponseEntity<string>)
      requires userRepository.Valid()
      modifies userRepository
      ensures userRepository.Valid()
      ensures old(email in userRepository.users) ==>
        && response == ResponseEntity(BadRequest, Some(EmailInUse))
        && userRepository.users == old(userRepository.users)
        && userRepository.nextId == old(userRepository.nextId)
      ensures old(email !in userRepository.users) ==>
        && response == ResponseEntity(Ok, Some(Registered))
        && userRepository.users == old(userRepository.users)[email := User(old(userRepository.nextId), email, encode(password))]
        && userRepository.nextId == old(userRepository.nextId) + 1
      ensures userRepository.users.Keys == old(userRepository.users.Keys) + {email}
    {
      if userRepository.FindByEmail(email).Some? {
        return ResponseEntity(BadRequest, Some(EmailInUse));
      }
      var user := userRepository.Save(email, encode(password));
      response := ResponseEntity(Ok, Some(Registered));
    }

    /**
     * `createAuthenticationToken`: a failed authentication propagates and no
     * token is made; otherwise the body is a map with the single key "token".
     */
    method CreateAuthenticationToken(email: string, password: string) returns (r: Result<map<string, string>, ServerError>)
      ensures r.Success? <==> authenticate(email, password)
      ensures r.Failure? ==> r.error == BadCredentials
      ensures r.Success? ==> r.value.Keys == {"token"} && r.value["token"] == generateToken(email)
    {
      if !authenticate(email, password) {
        return Failure(BadCredentials);
      }
      var jwt := generateToken(email);
      r := Success(map["token" := jwt]);
    }
  }
}
