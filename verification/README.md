# Email reply prompt builder

A model of `EmailGeneratorService` from the Smart Email Assistant backend. The service takes an
`EmailRequest` (the text of an email and an optional tone). It builds a natural-language prompt
from it and wraps the prompt in the JSON request body a generative-language API expects:
`{"contents":[{"parts":[{"text": prompt}]}]}`.

- `wrappers.dfy`: module `Wrappers`, an `Option` type. `None` stands for a Java `null` tone.
- `prompt.dfy`: module `PromptBuilder`. It holds the request datatype, the fixed texts, and
  `Prompt`, the prompt as `buildPrompt` writes it. It also holds the intended prompt of the finding below.
- `request_body.dfy`: module `RequestBody`. It holds a JSON value type and lookup along a path of
  member names and array positions. `Body` is the nested request body.
- `service.dfy`: module `EmailService`. The class `EmailGeneratorService` has its two
  configuration fields. Its `BuildPrompt` appends to a fresh `StringBuilder` as the Java method
  does and is proved equal to `Prompt`. Its `CraftRequest` is the written part of `generateEmailReply`.

The code interpolates the email content, not the tone, into the directive "Use a ... tone."
The model reproduces this as written. `PromptEqualIff` shows what follows from it: the prompt
depends on the tone only through whether the tone is present and non-empty.

The two `@Value` annotations are swapped. The field `geminiApiKey` receives the property
`gemini.api.url`, and `geminiApiURL` receives `gemini.api.key`. The constructor reproduces this
binding. No code that is shown reads either field, so the swap has no effect within this model.

## Model

| member | source | states |
|---|---|---|
| PromptBuilder.Prompt | email-writer/email-writer/src/main/java/com/email/email_writer/app/EmailGeneratorService.java:36-45 | The prompt begins with the exact instruction sentence. It ends with "\nOriginal email: \n" and then the full content. Its length is the instruction, plus "Use a " + content + " tone." when the tone is non-empty, plus the header and the content. |
| PromptBuilder.PromptShapes | email-writer/email-writer/src/main/java/com/email/email_writer/app/EmailGeneratorService.java:38-44 | With a non-empty tone, the prompt is exactly instruction, "Use a ", content, " tone.", header, content. So the directive sits right after the instruction and before the header. Without a tone, the prompt is exactly instruction, header, content, with no directive. |
| PromptBuilder.DirectiveIffTone | email-writer/email-writer/src/main/java/com/email/email_writer/app/EmailGeneratorService.java:40-41 | "Use a " follows the instruction sentence if and only if the tone is non-null and non-empty. |
| PromptBuilder.PromptEqualIff | email-writer/email-writer/src/main/java/com/email/email_writer/app/EmailGeneratorService.java:38-44 | Two requests give the same prompt if and only if they have the same content and agree on whether the tone is non-empty. The prompt keeps the content and the tone guard and nothing else. |
| PromptBuilder.ToneValueIgnored | email-writer/email-writer/src/main/java/com/email/email_writer/app/EmailGeneratorService.java:41 | Any two non-empty tones with the same content give identical prompts. This is the directive defect as written. |
| PromptBuilder.IntendedPrompt | email-writer/email-writer/src/main/java/com/email/email_writer/app/EmailGeneratorService.java:41 | The corrected prompt begins with the instruction sentence and ends with the header and the full content, as the prompt as written does. With a tone, "Use a " + tone + " tone." stands right after the instruction. Without one, it equals the prompt as written. |
| PromptBuilder.IntendedToneDetermined | email-writer/email-writer/src/main/java/com/email/email_writer/app/EmailGeneratorService.java:41 | In the corrected prompt, two requests with the same content and non-empty tones have equal prompts if and only if their tones are equal. |
| RequestBody.Body | email-writer/email-writer/src/main/java/com/email/email_writer/app/EmailGeneratorService.java:22-28 | The text at contents[0].parts[0].text of the body is the prompt. |
| RequestBody.BodyShape | email-writer/email-writer/src/main/java/com/email/email_writer/app/EmailGeneratorService.java:22-28 | The body has only "contents". That array has exactly one object, whose only member is "parts". That array has exactly one object, whose only member "text" holds the prompt. |
| RequestBody.BodyInjective | email-writer/email-writer/src/main/java/com/email/email_writer/app/EmailGeneratorService.java:22-28 | Two bodies are equal if and only if their prompts are equal. |
| EmailService.EmailGeneratorService.constructor | email-writer/email-writer/src/main/java/com/email/email_writer/app/EmailGeneratorService.java:12-15 | As annotated, geminiApiKey holds the configured URL and geminiApiURL holds the configured key. |
| EmailService.EmailGeneratorService.BuildPrompt | email-writer/email-writer/src/main/java/com/email/email_writer/app/EmailGeneratorService.java:36-45 | The appends to a fresh StringBuilder yield exactly Prompt(req). The result depends on the request alone. The method has no modifies clause, so the service's fields stay unchanged. |
| EmailService.EmailGeneratorService.CraftRequest | email-writer/email-writer/src/main/java/com/email/email_writer/app/EmailGeneratorService.java:17-28 | The crafted body is Body of the built prompt. By Body's contract, the prompt sits at contents[0].parts[0].text. |

## Findings

| source | as written | input that shows it | evidently intended | confidence | as-written member | corrected member |
|---|---|---|---|---|---|---|
| email-writer/email-writer/src/main/java/com/email/email_writer/app/EmailGeneratorService.java:41 | The directive appends the email content: "Use a <content> tone." | Content "See you Monday" with tone "formal", and the same content with tone "casual". Both give the same prompt, with "Use a See you Monday tone." | "Use a <tone> tone.", so that the tone reaches the model | high, not executed | PromptBuilder.ToneValueIgnored | PromptBuilder.IntendedPrompt |

`IntendedToneDetermined` proves the corrected prompt's property. The service class keeps the
as-written `Prompt`, because it models the code as it stands.

## Left out

- The outbound HTTP call, the response parsing and the error string. In this source the lines after
  the request body are empty comments, and `generateEmailReply` has no return statement. Response
  extraction is not part of this model.
- EmailService.EmailGeneratorService.CraftRequest: returns the request body. The Java method has no
  return statement, so it has no reply to model.
- Spring's `@Value` injection itself: the constructor takes the two resolved property values as parameters.
- A `null` email content: Java would append the text "null". The model treats the content as a string.
- The `EmailRequest` class and the controller are not part of this model. The request is a plain datatype.
- Java strings are sequences of UTF-16 code units, while the model's `string` is a sequence of Unicode scalar values. Lone surrogates cannot be represented, and lengths count scalar values rather than `length()`. Concatenation, the emptiness test and the length formula carry over, because the fixed texts are ASCII.
- `StringBuilder` is modelled only as far as `append` and `toString`, and has no capacity.
