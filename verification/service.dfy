/**
  EmailGeneratorService: the two configuration fields, the prompt built with a
  StringBuilder, and the request body that generateEmailReply crafts from it.
 */
module EmailService {

  import opened Wrappers
  import opened PromptBuilder
  import opened RequestBody

  /** The part of java.lang.StringBuilder the prompt builder uses: append and toString. */
  class StringBuilder {
    var chars: string

    constructor ()
      ensures chars == []
    {
      chars := [];
    }

    method Append(s: string)
      modifies this
      ensures chars == old(chars) + s
    {
      chars := chars + s;
    }

    function ToString(): string
      reads this
    {
      chars
    }
  }

  class EmailGeneratorService {
    var geminiApiKey: string
    var geminiApiURL: string

    /**
      Spring injects the two fields from configuration. As annotated, the key field
      receives the value of gemini.api.url and the URL field that of gemini.api.key.
     */
    constructor (urlProperty: string, keyProperty: string)
      ensures geminiApiKey == urlProperty && geminiApiURL == keyProperty
    {
      geminiApiKey := urlProperty;
      geminiApiURL := keyProperty;
    }

    /**
      Builds the prompt by appending to a fresh StringBuilder. The result is the
      prompt of the request alone; with no modifies clause, the configuration
      fields are left as they were.
     */
    method BuildPrompt(req: EmailRequest) returns (prompt: string)
      ensures prompt == Prompt(req)
    {
      var sb := new StringBuilder();
      sb.Append(Instruction);
      ghost var directive: string := [];
      if req.tone.Some? && req.tone.value != [] {
        sb.Append(DirectiveOpen);
        sb.Append(req.emailContent);
        sb.Append(DirectiveClose);
        directive := DirectiveOpen + req.emailContent + DirectiveClose;
      }
      assert sb.chars == Instruction + directive;
      sb.Append(OriginalHeader);
      sb.Append(req.emailContent);
      prompt := sb.ToString();
    }

    /**
      The part of generateEmailReply that is written: build the prompt and place it
      at contents[0].parts[0].text of the request body.
     */
    method CraftRequest(req: EmailRequest) returns (body: Json)
      ensures body == Body(Prompt(req))
    {
      var prompt := BuildPrompt(req);
      body := Body(prompt);
    }
  }
}
