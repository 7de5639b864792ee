TestResult.DisplayName,TestResult.Outcome,TestResult.Duration,TestResult.ResourceCount,RandomSeed
Sniff.ContentSpec (well-formedness),Passed,00:00:00.5495180,833813,2
Sniff.ContentSpecEarlierAttemptsFailed (well-formedness),Passed,00:00:00.3121100,170633,2
Sniff.ContentSpecEarlierAttemptsFailed (correctness),Passed,00:00:00.1018182,169992,2
