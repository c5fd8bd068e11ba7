/**
 * Worked requests: a complete form with and without provider configuration,
 * a form without the name field, and a wrong secret.
 */
module WebhookExamples {
  import opened Wrappers
  import opened Strings
  import opened Phone
  import opened Fields
  import opened Webhook

  function NameField(): Field {
    Field("1", "Primeiro nome completo", "", Some("Maria Silva"))
  }

  function PhoneField(): Field {
    Field("2", "Telefone Celular", "", Some(Masked("11", "91234", "5678")))
  }

  /** The name entry is matched by its label "Primeiro nome completo". */
  lemma NameFieldMatches()
    ensures Matches(NameField(), Lower(NameLabel), Lower(NameKey))
  {
    LowerPrefix(NameLabel, NameField().fieldLabel);
  }

  /** The name is found in the first entry. */
  lemma PicksSampleName()
    ensures Pick(Some([NameField(), PhoneField()]), NameLabel, NameKey) == "Maria Silva"
  {
    NameFieldMatches();
    PickFirstMatching([NameField(), PhoneField()], NameLabel, NameKey, 0);
  }

  /** The phone entry is matched by its label "Telefone Celular". */
  lemma PhoneFieldMatches()
    ensures Matches(PhoneField(), Lower(PhoneLabel), Lower(PhoneKey))
  {
    LowerPrefix(PhoneLabel, PhoneField().fieldLabel);
  }

  /** Neither "f" nor "F" occurs in the name entry's label. */
  lemma NameLabelLacksF()
    ensures 'f' !in Lower("Primeiro nome completo")
  {
    LowerAvoids("Primeiro nome completo", 'f');
  }

  /** The name entry's label has no "f", so it cannot contain "telefone", and it has no key. */
  lemma NameFieldIsNotPhone()
    ensures !Matches(NameField(), Lower(PhoneLabel), Lower(PhoneKey))
  {
    NameLabelLacksF();
    assert Lower(PhoneLabel)[4] == 'f';
    MissingCharNotContained(Lower(NameField().fieldLabel), Lower(PhoneLabel), 'f');
    assert |Lower(PhoneKey)| == 5;
  }

  /** The phone is found in the second entry. */
  lemma PicksSamplePhone()
    ensures Pick(Some([NameField(), PhoneField()]), PhoneLabel, PhoneKey) == Masked("11", "91234", "5678")
  {
    PhoneFieldMatches();
    NameFieldIsNotPhone();
    PickFirstMatching([NameField(), PhoneField()], PhoneLabel, PhoneKey, 1);
  }

  /** The sample phone gains the country code. */
  lemma NormalisesSamplePhone()
    ensures ToE164BR(Masked("11", "91234", "5678")) == "+55" + "11" + "91234" + "5678"
  {
    MaskedLocalNumber("11", "91234", "5678");
  }

  /** The digits of the normalised sample phone, and its tail "345678". */
  lemma SamplePhoneTail()
    ensures Digits("+55" + "11" + "91234" + "5678") == "55" + "11" + "91234" + "5678"
    ensures Last6("+55" + "11" + "91234" + "5678") == "345678"
  {
    E164Digits("+55" + "11" + "91234" + "5678");
  }

  /** The sample name needs no trimming. */
  lemma SampleNameTrimmed()
    ensures Trim("Maria Silva") == "Maria Silva"
  {
    TrimKeeps("Maria Silva");
  }

  /** The sample's first name is "Maria". */
  lemma SampleFirstName()
    ensures FirstName("Maria Silva") == "Maria"
  {
    FirstPieceAt("Maria Silva", ' ', 5);
  }

  /** Without provider configuration the request is accepted and nothing is sent. */
  lemma SampleUnconfigured(base: string)
    ensures Decide(Config("", base, "", ""), None, Some([NameField(), PhoneField()]))
         == Degraded(Contact("Maria Silva", "+55" + "11" + "91234" + "5678", "345678"))
  {
    PicksSampleName();
    PicksSamplePhone();
    NormalisesSamplePhone();
    SamplePhoneTail();
    SampleNameTrimmed();
  }

  /** With provider configuration the message goes to the number's digits and greets "Maria". */
  lemma SampleConfigured(base: string, endpoint: string, token: string)
    requires endpoint != "" && token != ""
    ensures Decide(Config("", base, endpoint, token), None, Some([NameField(), PhoneField()]))
         == ProceedToSend(Contact("Maria Silva", "+55" + "11" + "91234" + "5678", "345678"),
                          base + endpoint + "/" + token, "55" + "11" + "91234" + "5678", "Maria",
                          base + "/api/enviar-documento/" + token)
  {
    PicksSampleName();
    PicksSamplePhone();
    NormalisesSamplePhone();
    SamplePhoneTail();
    SampleNameTrimmed();
    SampleFirstName();
  }

  /** Neither "p" nor "P" occurs in the phone entry's label. */
  lemma PhoneLabelLacksP()
    ensures 'p' !in Lower("Telefone Celular")
  {
    LowerAvoids("Telefone Celular", 'p');
  }

  /** The phone entry's label has no "p", so it cannot contain "primeiro nome", and it has
      no key. */
  lemma PhoneFieldIsNotName()
    ensures !Matches(PhoneField(), Lower(NameLabel), Lower(NameKey))
  {
    PhoneLabelLacksP();
    assert Lower(NameLabel)[0] == 'p';
    MissingCharNotContained(Lower(PhoneField().fieldLabel), Lower(NameLabel), 'p');
    assert |Lower(NameKey)| == 9;
  }

  /** Without a name entry the request is refused, echoing the raw phone value. */
  lemma SampleMissingName(cfg: Config)
    requires cfg.webhookSecret == ""
    ensures Decide(cfg, None, Some([PhoneField()])) == BadRequest("", Masked("11", "91234", "5678"))
  {
    PhoneFieldIsNotName();
    PickNothingMatching(Some([PhoneField()]), NameLabel, NameKey);
    PhoneFieldMatches();
    PickFirstMatching([PhoneField()], PhoneLabel, PhoneKey, 0);
    assert Trim("") == "";
    BadRequestWhenInvalid(cfg, "", Masked("11", "91234", "5678"));
  }

  /** A configured secret that the header does not carry refuses the request. */
  lemma SampleWrongSecret(formData: Option<seq<Field>>)
    ensures Decide(Config("s3cret", "", "/send", "t"), Some("guess"), formData) == Unauthorized
    ensures Decide(Config("s3cret", "", "/send", "t"), None, formData) == Unauthorized
  {
  }
}
