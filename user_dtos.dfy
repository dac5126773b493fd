/** The request and response bodies of the authentication endpoints. */
module UserDtos {
  import opened Wrappers
  import opened DataAnnotations
  import opened Entities

  datatype UserRegisterDto = UserRegisterDto(username: string, email: string, password: string)

  /** The bounds UserRegisterDto's attributes declare. */
  predicate UserRegisterDtoValid(dto: UserRegisterDto)
  {
    && Required(Some(dto.username)) && StringLength(Some(dto.username), 100, 3)
    && Required(Some(dto.email)) && EmailAddress(Some(dto.email)) && StringLength(Some(dto.email), 255)
    && Required(Some(dto.password)) && StringLength(Some(dto.password), 100, 6)
  }

  datatype UserLoginDto = UserLoginDto(email: string, password: string)

  /** The bounds UserLoginDto's attributes declare. */
  predicate UserLoginDtoValid(dto: UserLoginDto)
  {
    Required(Some(dto.email)) && EmailAddress(Some(dto.email)) && Required(Some(dto.password))
  }

  /** What a successful register or login returns. `userId` is the user's Guid as text. */
  datatype AuthResponseDto = AuthResponseDto(
    userId: string,
    username: string,
    email: string,
    token: string,
    expiresAt: DateTime)

  /** The registration body the controller test rejects: a two-character username fails
      [StringLength(100, MinimumLength = 3)] whatever the other fields hold. */
  lemma ShortUsernameInvalid(dto: UserRegisterDto)
    requires |dto.username| < 3
    ensures !UserRegisterDtoValid(dto)
  {
  }

  /** What a valid registration body is, stated without the attributes: a user name of 3 to
      100 characters that are not all white space, an email address of at most 255
      characters with exactly one '@' that is neither first nor last (the '@' alone already
      makes it non-blank), and a password of 6 to 100 characters that are not all white
      space. */
  lemma UserRegisterDtoValidIff(dto: UserRegisterDto)
    ensures UserRegisterDtoValid(dto) <==>
      && 3 <= |dto.username| <= 100 && (exists i | 0 <= i < |dto.username| :: !IsWhiteSpace(dto.username[i]))
      && |dto.email| <= 255
      && (exists k | 0 < k < |dto.email| - 1 ::
            dto.email[k] == '@' && forall j | 0 <= j < |dto.email| && j != k :: dto.email[j] != '@')
      && 6 <= |dto.password| <= 100 && (exists i | 0 <= i < |dto.password| :: !IsWhiteSpace(dto.password[i]))
  {
    EmailAddressIff(dto.email);
    if k :| 0 < k < |dto.email| - 1 && dto.email[k] == '@' && forall j | 0 <= j < |dto.email| && j != k :: dto.email[j] != '@' {
      assert !IsWhiteSpace(dto.email[k]);
    }
  }
}
