TestResult.DisplayName,TestResult.Outcome,TestResult.Duration,TestResult.ResourceCount,RandomSeed
Sniff.ContentSpec (well-formedness),Passed,00:00:00.6713207,1726114,3
Sniff.ContentSpecEarlierAttemptsFailed (well-formedness),Passed,00:00:00.3335223,163362,3
Sniff.ContentSpecEarlierAttemptsFailed (correctness),Passed,00:00:00.1457958,292534,3
